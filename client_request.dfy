/**
 * The request side of the administration client (src/client.c): `serialize_request`
 * and `serialize_config_data` lay a request out as a version byte, the token, the
 * method, the target, the data length and a data payload whose layout depends on the
 * method and the target.
 *
 * The `client_request_args` union is modelled as a tagged variant, one alternative per
 * method/target pair, so that the payload fields always match the target.
 */
module ClientRequest {
  import opened Bytes
  import opened Wrappers

  /** A NUL-terminated string, seen as the bytes `strlen` counts. */
  type CString = s: seq<byte> | 0 !in s

  datatype Method = Get | Config

  /** Targets of a `get` request. */
  datatype GetTarget =
    | HistoricConnections
    | ConcurrentConnections
    | TransferredBytes
    | ProxyUsersList
    | AdminUsersList

  /** Targets of a `config` request. */
  datatype ConfigTarget =
    | ToggleDisector
    | AddProxyUser
    | AddAdminUser
    | DelProxyUser
    | DelAdminUser

  /** The target byte of a request, from whichever enumeration the method selects. */
  datatype Target = OfGet(get: GetTarget) | OfConfig(config: ConfigTarget)

  /** The method, target and data of `client_request_args`, tagged by target. `user` of
      the two delete commands is the whole `user` array, of which `dlen` bytes are
      copied. */
  datatype Command =
    | GetCommand(getTarget: GetTarget, optionalData: byte)
    | ToggleDisectorCommand(disector: int)
    | AddProxyUserCommand(proxyUser: CString, proxySeparator: byte, pass: CString)
    | AddAdminUserCommand(adminUser: CString, adminSeparator: byte, adminToken: CString)
    | DelProxyUserCommand(delProxyUser: seq<byte>)
    | DelAdminUserCommand(delAdminUser: seq<byte>)

  /** `client_request_args`: authentication token, data length as given, command. */
  datatype RequestArgs = RequestArgs(token: seq<byte>, dlen: uint16, command: Command)

  /** `client_serialized_request`; `data` holds the bytes the serialiser writes at the
      start of the data array (the rest of the array is left as it was). */
  datatype SerializedRequest =
    SerializedRequest(version: byte, token: seq<byte>, requestMethod: Method, target: Target,
                      dlen: uint16, data: seq<byte>)

  function MethodOf(c: Command): Method {
    if c.GetCommand? then Get else Config
  }

  function TargetOf(c: Command): (t: Target)
    ensures t.OfGet? <==> MethodOf(c) == Get
  {
    match c
    case GetCommand(g, _) => OfGet(g)
    case ToggleDisectorCommand(_) => OfConfig(ToggleDisector)
    case AddProxyUserCommand(_, _, _) => OfConfig(AddProxyUser)
    case AddAdminUserCommand(_, _, _) => OfConfig(AddAdminUser)
    case DelProxyUserCommand(_) => OfConfig(DelProxyUser)
    case DelAdminUserCommand(_) => OfConfig(DelAdminUser)
  }

  /** The two delete commands copy `dlen` bytes out of the `user` array, which must hold
      that many. */
  predicate CopyFits(args: RequestArgs) {
    match args.command
    case DelProxyUserCommand(user) => args.dlen <= |user|
    case DelAdminUserCommand(user) => args.dlen <= |user|
    case _ => true
  }

  /** The `user ++ [separator] ++ secret` layout of the two add commands. */
  function Credentials(user: CString, separator: byte, secret: CString): (data: seq<byte>)
    ensures |data| == |user| + 1 + |secret|
    ensures data[..|user|] == user && data[|user|] == separator && data[|user| + 1..] == secret
  {
    user + [separator] + secret
  }

  /** `serialize_config_data`: the payload of a `config` request. The disector value is
      truncated to its low byte; the add commands lay out user, separator and password or
      token; the delete commands copy the first `dlen` bytes of the user array. */
  function SerializeConfigData(c: Command, dlen: uint16): (data: seq<byte>)
    requires MethodOf(c) == Config
    requires (c.DelProxyUserCommand? ==> dlen <= |c.delProxyUser|)
    requires (c.DelAdminUserCommand? ==> dlen <= |c.delAdminUser|)
    ensures c.ToggleDisectorCommand? ==>
              |data| == 1 && data[0] == c.disector % 0x100 &&
              (0 <= c.disector < 0x100 ==> data[0] == c.disector)
    ensures c.AddProxyUserCommand? ==> data == Credentials(c.proxyUser, c.proxySeparator, c.pass)
    ensures c.AddAdminUserCommand? ==> data == Credentials(c.adminUser, c.adminSeparator, c.adminToken)
    ensures c.DelProxyUserCommand? ==> |data| == dlen && data == c.delProxyUser[..dlen]
    ensures c.DelAdminUserCommand? ==> |data| == dlen && data == c.delAdminUser[..dlen]
  {
    match c
    case ToggleDisectorCommand(v) => [v % 0x100]
    case AddProxyUserCommand(user, sep, pass) => Credentials(user, sep, pass)
    case AddAdminUserCommand(user, sep, token) => Credentials(user, sep, token)
    case DelProxyUserCommand(user) => user[..dlen]
    case DelAdminUserCommand(user) => user[..dlen]
  }

  /** `serialize_request`: version 1, the token copied verbatim, method and data length
      copied unchanged (no byte swap), the target taken from the command; a `get` carries
      its one optional byte, a `config` the payload of `SerializeConfigData`. */
  function SerializeRequest(args: RequestArgs): (r: SerializedRequest)
    requires CopyFits(args)
    ensures r.version == 1 && r.token == args.token && r.dlen == args.dlen
    ensures r.requestMethod == MethodOf(args.command) && r.target == TargetOf(args.command)
    ensures r.requestMethod == Get ==> r.data == [args.command.optionalData]
    ensures r.requestMethod == Config ==> r.data == SerializeConfigData(args.command, args.dlen)
  {
    var data :=
      if args.command.GetCommand? then [args.command.optionalData]
      else SerializeConfigData(args.command, args.dlen);
    SerializedRequest(1, args.token, MethodOf(args.command), TargetOf(args.command), args.dlen, data)
  }

  // ---------------------------------------------------------------------------------
  // Reading a payload back: what a receiver of these requests has to do
  // ---------------------------------------------------------------------------------

  /** Index of the first occurrence of `b` in `s`, or `|s|` if there is none. */
  function FirstIndexOf(s: seq<byte>, b: byte): (k: nat)
    ensures k <= |s|
    ensures k < |s| ==> s[k] == b
    ensures forall j :: 0 <= j < k ==> s[j] != b
  {
    if s == [] then 0
    else if s[0] == b then 0
    else 1 + FirstIndexOf(s[1..], b)
  }

  /** Splits a credentials payload at the first separator byte. */
  function SplitCredentials(data: seq<byte>, separator: byte): Option<(seq<byte>, seq<byte>)> {
    var k := FirstIndexOf(data, separator);
    if k == |data| then None else Some((data[..k], data[k + 1..]))
  }

  /** The user/secret layout reads back unchanged exactly when the separator does not
      occur in the user name: otherwise the first separator found is inside the name. */
  lemma CredentialsSplitBack(user: CString, separator: byte, secret: CString)
    ensures SplitCredentials(Credentials(user, separator, secret), separator) == Some((user, secret))
            <==> separator !in user
  {
    var data := Credentials(user, separator, secret);
    var k := FirstIndexOf(data, separator);
    if separator !in user {
      assert forall j :: 0 <= j < |user| ==> data[j] == user[j];
      assert data[|user|] == separator;
      assert k == |user|;
    } else {
      var m :| 0 <= m < |user| && user[m] == separator;
      assert data[m] == separator;
      assert k <= m;
    }
  }

  /** The payload of a `config` request decoded back into its command, given the
      separator byte the add commands use. */
  function ParseConfigData(target: ConfigTarget, data: seq<byte>, separator: byte): Option<Command> {
    match target
    case ToggleDisector =>
      if |data| == 1 then Some(ToggleDisectorCommand(data[0])) else None
    case AddProxyUser =>
      (match SplitCredentials(data, separator)
       case Some((user, pass)) =>
         if 0 !in user && 0 !in pass then Some(AddProxyUserCommand(user, separator, pass)) else None
       case None => None)
    case AddAdminUser =>
      (match SplitCredentials(data, separator)
       case Some((user, token)) =>
         if 0 !in user && 0 !in token then Some(AddAdminUserCommand(user, separator, token)) else None
       case None => None)
    case DelProxyUser => Some(DelProxyUserCommand(data))
    case DelAdminUser => Some(DelAdminUserCommand(data))
  }

  /** A command whose fields are representable on the wire: a disector value that fits in
      a byte, add commands whose user name does not contain the separator, and delete
      commands whose `dlen` is the length of the user array. */
  predicate Representable(c: Command, dlen: uint16, separator: byte) {
    match c
    case GetCommand(_, _) => false
    case ToggleDisectorCommand(v) => 0 <= v < 0x100
    case AddProxyUserCommand(user, sep, _) => sep == separator && separator !in user
    case AddAdminUserCommand(user, sep, _) => sep == separator && separator !in user
    case DelProxyUserCommand(user) => dlen as int == |user|
    case DelAdminUserCommand(user) => dlen as int == |user|
  }

  /** Round trip: the payload of a representable `config` command decodes to the same
      command. */
  lemma ConfigDataRoundTrip(c: Command, dlen: uint16, separator: byte)
    requires Representable(c, dlen, separator)
    ensures ParseConfigData(TargetOf(c).config, SerializeConfigData(c, dlen), separator) == Some(c)
  {
    match c
    case ToggleDisectorCommand(v) =>
    case AddProxyUserCommand(user, sep, pass) => CredentialsSplitBack(user, sep, pass);
    case AddAdminUserCommand(user, sep, token) => CredentialsSplitBack(user, sep, token);
    case DelProxyUserCommand(user) => assert user[..dlen] == user;
    case DelAdminUserCommand(user) => assert user[..dlen] == user;
  }
}
