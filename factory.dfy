/**
 * JiraClientFactory: the client kind named by a string or the enum, and
 * the choice read from JIRA_CLIENT_TYPE.
 */
module Factory {
  import opened Wrappers
  import opened Records
  import NativeClient
  import Environ

  /** The backed enum ClientType. */
  datatype ClientType = Native | Lesstif {
    function Name(): string {
      match this
      case Native => "native"
      case Lesstif => "lesstif"
    }
  }

  /** `ClientType::tryFrom`: an exact, case-sensitive match on the backing string. */
  function TryFrom(s: string): (r: Option<ClientType>)
    ensures r.Some? ==> r.value.Name() == s
    ensures r.None? ==> s != Native.Name() && s != Lesstif.Name()
  {
    if s == "native" then Some(Native) else if s == "lesstif" then Some(Lesstif) else None
  }

  /** `create` accepts the enum itself or a string. */
  datatype TypeArgument = Enum(t: ClientType) | Text(s: string)

  /** The client `create` builds; the lesstif adapter is not part of this model. */
  datatype Created = NativeClientOf(client: NativeClient.NativeJiraClient) | LesstifClient

  const UnknownTypePrefix := "Unknown client type: "

  /**
   * `create($type = ClientType::Native)`: the native client from the
   * environment (passing on its credential error), the lesstif adapter, or
   * an error naming an unknown type.
   */
  function Create(e: Environ.Environment, arg: TypeArgument := Enum(Native)): (r: Result<Created, JiraError>)
    ensures var t := if arg.Enum? then Some(arg.t) else TryFrom(arg.s);
      && (t == Some(Native) ==>
            r == match NativeClient.FromEnv(e)
                 case Success(n) => Success(NativeClientOf(n))
                 case Failure(err) => Failure(err))
      && (t == Some(Lesstif) ==> r == Success(LesstifClient))
      && (t.None? ==> r == Failure(JiraError(UnknownTypePrefix + arg.s, 0, None)))
  {
    match arg
    case Enum(t) => Build(e, t)
    case Text(s) =>
      (match TryFrom(s)
       case Some(t) => Build(e, t)
       case None => Failure(JiraError(UnknownTypePrefix + s)))
  }

  /** The `match` on the resolved kind. */
  function Build(e: Environ.Environment, t: ClientType): Result<Created, JiraError> {
    if t.Native? then
      (match NativeClient.FromEnv(e)
       case Success(n) => Success(NativeClientOf(n))
       case Failure(err) => Failure(err))
    else Success(LesstifClient)
  }

  /** A type name selects the same client as its enum case, and no other string selects one. */
  lemma CreateByName(e: Environ.Environment, s: string)
    ensures s == "native" ==> Create(e, Text(s)) == Create(e)
    ensures s == "lesstif" ==> Create(e, Text(s)) == Create(e, Enum(Lesstif))
    ensures s != "native" && s != "lesstif" ==> Create(e, Text(s)).Failure?
    ensures Create(e, Text(s)).Success? ==> exists t: ClientType :: t.Name() == s
  {
    if Create(e, Text(s)).Success? {
      assert TryFrom(s).value.Name() == s;
    }
  }

  /** `fromEnv`: JIRA_CLIENT_TYPE, with unset or falsy meaning 'native'. */
  function FromEnv(e: Environ.Environment): (r: Result<Created, JiraError>)
    ensures var name := "JIRA_CLIENT_TYPE";
      (if name in e.dotenv then Environ.Falsy(e.dotenv[name])
       else name !in e.process || Environ.Falsy(e.process[name])) ==> r == Create(e)
    ensures var name := "JIRA_CLIENT_TYPE";
      name in e.dotenv && !Environ.Falsy(e.dotenv[name]) ==> r == Create(e, Text(e.dotenv[name]))
    ensures var name := "JIRA_CLIENT_TYPE";
      name !in e.dotenv && name in e.process && !Environ.Falsy(e.process[name]) ==>
        r == Create(e, Text(e.process[name]))
  {
    Create(e, Text(Environ.Lookup(e, "JIRA_CLIENT_TYPE", "native")))
  }

  /** Without credentials, the default choice fails with the native client's error, status 0. */
  lemma FromEnvWithoutCredentials(e: Environ.Environment)
    requires "JIRA_CLIENT_TYPE" !in e.dotenv && "JIRA_CLIENT_TYPE" !in e.process
    requires "JIRA_HOST" !in e.dotenv && "JIRA_HOST" !in e.process
    ensures FromEnv(e) == Failure(JiraError(NativeClient.MissingCredentials, 0, None))
  {
  }
}
