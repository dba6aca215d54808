/**
 * The Tauri demo's back-end commands: `greet`, `calculate` on 32-bit
 * integers, and the counter kept in managed state. Arithmetic follows a
 * debug build: an overflowing result panics instead of wrapping.
 */
module Tauri {
  import opened Wrappers
  import opened IntDiv

  const I32Min := -0x8000_0000
  const I32Max := 0x7fff_ffff

  predicate InI32(x: int) {
    I32Min <= x <= I32Max
  }

  /** What a command does: returns a value, or panics. */
  datatype Outcome<+T> = Returned(value: T) | Panicked

  /** An i32 result: the value when it fits, a panic ("attempt to ... with overflow") otherwise. */
  function Checked(x: int): (r: Outcome<Result<int, string>>)
    ensures r.Returned? <==> InI32(x)
    ensures r.Returned? ==> r.value == Success(x)
  {
    if InI32(x) then Returned(Success(x)) else Panicked
  }

  const Greeting := "Hello, "
  const Welcome := "! Welcome to Tauri 2.2!"

  /** `greet`: the name between a fixed greeting and a fixed welcome. */
  function Greet(name: string): string {
    Greeting + name + Welcome
  }

  /** Reads the name back out of a greeting. */
  function GreetedName(message: string): Option<string> {
    if |message| >= |Greeting| + |Welcome| && message[..|Greeting|] == Greeting
       && message[|message| - |Welcome|..] == Welcome
    then Some(message[|Greeting|..|message| - |Welcome|])
    else None
  }

  /** The greeting carries the name unchanged, so different names give different greetings. */
  lemma GreetReadsBack(name: string)
    ensures GreetedName(Greet(name)) == Some(name)
    ensures |Greet(name)| == |Greeting| + |name| + |Welcome|
  {
    var m := Greet(name);
    assert m[..|Greeting|] == Greeting;
    assert m[|m| - |Welcome|..] == Welcome;
    assert m[|Greeting|..|m| - |Welcome|] == name;
  }

  /**
   * `calculate`: four operations by exact name. Division by zero and an
   * unknown operation are errors; a result outside i32 (including
   * i32::MIN / -1) panics.
   */
  function Calculate(a: int, b: int, operation: string): (r: Outcome<Result<int, string>>)
    requires InI32(a) && InI32(b)
    ensures operation == "add" ==> r == Checked(a + b)
    ensures operation == "subtract" ==> r == Checked(a - b)
    ensures operation == "multiply" ==> r == Checked(a * b)
    ensures operation == "divide" && b == 0 ==> r == Returned(Failure("Division by zero"))
    ensures operation == "divide" && b != 0 ==>
      && (r.Returned? <==> !(a == I32Min && b == -1))
      && (r.Returned? ==> r.value.Success? && a == r.value.value * b + TruncRem(a, b)
                          && Abs(TruncRem(a, b)) < Abs(b) && (a >= 0 ==> TruncRem(a, b) >= 0)
                          && (a <= 0 ==> TruncRem(a, b) <= 0))
    ensures operation !in {"add", "subtract", "multiply", "divide"} ==> r == Returned(Failure("Unknown operation"))
  {
    match operation
    case "add" => Checked(a + b)
    case "subtract" => Checked(a - b)
    case "multiply" => Checked(a * b)
    case "divide" =>
      if b == 0 then Returned(Failure("Division by zero"))
      else
        TruncDivision(a, b);
        assert InI32(TruncDiv(a, b)) <==> !(a == I32Min && b == -1) by {
          QuotientRange(a, b);
        }
        Checked(TruncDiv(a, b))
    case _ => Returned(Failure("Unknown operation"))
  }

  /** Only i32::MIN / -1 takes a quotient of two i32 values out of range. */
  lemma QuotientRange(a: int, b: int)
    requires InI32(a) && InI32(b) && b != 0
    ensures InI32(TruncDiv(a, b)) <==> !(a == I32Min && b == -1)
  {
    QuotientBound(Abs(a), Abs(b));
  }

  /** A quotient by a positive divisor is at most the dividend, and equal only for 0 or a divisor of 1. */
  lemma QuotientBound(x: nat, y: nat)
    requires y >= 1
    ensures x / y <= x
    ensures x / y == x ==> x == 0 || y == 1
  {
    var q := x / y;
    assert x == q * y + x % y;
    assert q * y >= q by {
      MulAtLeast(q, y);
    }
    if q == x && x != 0 && y != 1 {
      assert q * y >= 2 * q by {
        MulAtLeast(q, y);
      }
      assert false;
    }
  }

  lemma MulAtLeast(q: nat, y: nat)
    requires y >= 1
    ensures q * y >= q
    ensures y >= 2 ==> q * y >= 2 * q
  {
    if y >= 2 {
      assert q * y == q * (y - 2) + 2 * q;
    } else {
      assert q * y == q;
    }
  }

  /**
   * The managed counter. `poisoned` records that a panic happened while
   * the lock was held: every later `lock().unwrap()` panics.
   */
  class Counter {
    var count: int
    var poisoned: bool

    /** The count only ever moves from 0 upward within i32. */
    predicate Valid()
      reads this
    {
      0 <= count <= I32Max
    }

    /** `Counter { count: Mutex::new(0) }`. */
    constructor()
      ensures count == 0 && !poisoned && Valid()
    {
      count := 0;
      poisoned := false;
    }

    /** `get_counter`: the current value, nothing changed. */
    method Get() returns (r: Outcome<int>)
      requires Valid()
      ensures poisoned ==> r == Panicked
      ensures !poisoned ==> r == Returned(count) && 0 <= r.value <= I32Max
    {
      if poisoned {
        r := Panicked;
      } else {
        r := Returned(count);
      }
    }

    /**
     * `increment_counter`: one more, and the new value. At i32::MAX the
     * addition panics with the lock held, which poisons it.
     */
    method Increment() returns (r: Outcome<int>)
      requires Valid()
      modifies this
      ensures Valid()
      ensures old(poisoned) ==> r == Panicked && count == old(count) && poisoned
      ensures !old(poisoned) && old(count) < I32Max ==> count == old(count) + 1 && r == Returned(count) && !poisoned
      ensures !old(poisoned) && old(count) == I32Max ==> r == Panicked && count == old(count) && poisoned
    {
      if poisoned {
        r := Panicked;
      } else if count == I32Max {
        poisoned := true;
        r := Panicked;
      } else {
        count := count + 1;
        r := Returned(count);
      }
    }
  }

  /** From a fresh counter, n increments return 1, 2, ..., n and leave n behind. */
  method IncrementTimes(n: nat) returns (c: Counter, values: seq<int>)
    requires n <= I32Max
    ensures fresh(c) && c.Valid() && c.count == n && !c.poisoned
    ensures |values| == n && forall k :: 0 <= k < n ==> values[k] == k + 1
  {
    c := new Counter();
    values := [];
    var k := 0;
    while k < n
      invariant 0 <= k <= n
      invariant c.Valid() && c.count == k && !c.poisoned
      invariant |values| == k && forall m :: 0 <= m < k ==> values[m] == m + 1
    {
      var r := c.Increment();
      values := values + [r.value];
      k := k + 1;
    }
  }
}
