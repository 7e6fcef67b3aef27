/** `PGURLtoGormDSN`: turns a PostgreSQL URL into the "key=value ..." connection string the gorm
    driver reads. `url.Parse` is not modelled; its outcome is the input. */
module Dsn {
  import opened Base
  import opened Text

  const DEFAULT_PORT := "5432"
  const DEFAULT_SSLMODE := "disable"
  const DEFAULT_TIMEZONE := "UTC"

  /** The settings in the order they are written. */
  const KEYS: seq<string> := ["host", "user", "password", "dbname", "port", "sslmode", "TimeZone"]

  /** `u.User`: the user name and, when the URL gives one, the password. */
  datatype UserInfo = UserInfo(username: string, password: Option<string>)

  /** The parts of a parsed URL the builder reads: `u.User` (nil or not), `u.Hostname()`, `u.Port()`,
      `u.Path` and `u.Query()`. */
  datatype PgUrl = PgUrl(user: Option<UserInfo>, hostname: string, port: string, path: string,
                         query: map<string, seq<string>>)

  datatype UrlParse = Parsed(url: PgUrl) | ParseError(message: string)

  /** The returned string and error. */
  datatype Outcome = Outcome(dsn: string, err: Option<string>)

  /** `url.Values.Get`: the first value of `key`, or "". */
  function QueryGet(query: map<string, seq<string>>, key: string): string {
    if key in query && |query[key]| > 0 then query[key][0] else ""
  }

  /** `u.User.Username()`, "" for a URL without user information. */
  function Username(u: PgUrl): string {
    if u.user.Some? then u.user.value.username else ""
  }

  /** `u.User.Password()`, "" when the URL has no password. */
  function Password(u: PgUrl): string {
    if u.user.Some? && u.user.value.password.Some? then u.user.value.password.value else ""
  }

  /** `s` unless it is empty, `default` then. */
  function OrDefault(s: string, default: string): (r: string)
    ensures s == "" ==> r == default
    ensures s != "" ==> r == s
  {
    if s == "" then default else s
  }

  /** The values written for `KEYS`, in order, after defaulting. */
  function Values(u: PgUrl): (v: seq<string>)
    ensures |v| == |KEYS|
  {
    [u.hostname, Username(u), Password(u), TrimPrefix(u.path, "/"), OrDefault(u.port, DEFAULT_PORT),
     OrDefault(QueryGet(u.query, "sslmode"), DEFAULT_SSLMODE),
     OrDefault(QueryGet(u.query, "TimeZone"), DEFAULT_TIMEZONE)]
  }

  /** "key=value" for each setting. */
  function Pairs(keys: seq<string>, values: seq<string>): (r: seq<string>)
    requires |keys| == |values|
    ensures |r| == |keys|
    ensures forall i :: 0 <= i < |r| ==> r[i] == keys[i] + "=" + values[i]
  {
    seq(|keys|, i requires 0 <= i < |keys| => keys[i] + "=" + values[i])
  }

  /** `PGURLtoGormDSN`. */
  function PgUrlToGormDsn(parsed: UrlParse): (r: Outcome)
    ensures parsed.ParseError? ==> r == Outcome("", Some(parsed.message))
    ensures parsed.Parsed? ==> r.err.None? && r.dsn != ""
  {
    match parsed
    case ParseError(message) => Outcome("", Some(message))
    case Parsed(u) => Outcome(Join(Pairs(KEYS, Values(u)), ' '), None)
  }

  /** How a reader of the connection string takes one "key=value" apart: at the first '='. */
  function ReadPair(s: string): (string, string) {
    var i := IndexOf(s, '=');
    if i == |s| then (s, "") else (s[..i], s[i + 1..])
  }

  /** A reader of the connection string: space-separated "key=value" settings. */
  function ReadDsn(dsn: string): (r: seq<(string, string)>) {
    var parts := Split(dsn, ' ');
    seq(|parts|, i requires 0 <= i < |parts| => ReadPair(parts[i]))
  }

  predicate NoSpaces(values: seq<string>) {
    forall i :: 0 <= i < |values| ==> ' ' !in values[i]
  }

  /** Keys that hold neither a space nor '='. */
  predicate PlainKeys(keys: seq<string>) {
    forall i :: 0 <= i < |keys| ==> ' ' !in keys[i] && '=' !in keys[i]
  }

  /** Reading back joined settings gives each key with its value, in order. */
  lemma {:induction false} ReadPairsBack(keys: seq<string>, values: seq<string>)
    requires |keys| == |values| && |keys| > 0
    requires PlainKeys(keys) && NoSpaces(values)
    ensures var read := ReadDsn(Join(Pairs(keys, values), ' '));
            |read| == |keys| && forall i :: 0 <= i < |keys| ==> read[i] == (keys[i], values[i])
  {
    var ps := Pairs(keys, values);
    forall i | 0 <= i < |ps|
      ensures ' ' !in ps[i] && ReadPair(ps[i]) == (keys[i], values[i])
    {
      PairSplits(keys[i], values[i]);
    }
    SplitJoin(ps, ' ');
  }

  /** One setting reads back as its key and value when the key has no '=' and neither has a space. */
  lemma {:induction false} PairSplits(key: string, value: string)
    requires ' ' !in key && '=' !in key && ' ' !in value
    ensures ' ' !in key + "=" + value
    ensures ReadPair(key + "=" + value) == (key, value)
  {
    IndexOfFirst(key, '=', value);
    assert key + "=" + value == key + ['='] + value;
  }

  lemma KeysArePlain()
    ensures PlainKeys(KEYS)
  {
  }

  /** Reading back the connection string of a URL whose settings hold no space gives the seven settings
      in their fixed order, with the port, sslmode and TimeZone defaults applied, the password empty
      when absent, and the database name stripped of one leading '/'. */
  lemma {:induction false} DsnReadsBack(u: PgUrl)
    requires NoSpaces(Values(u))
    ensures var read := ReadDsn(PgUrlToGormDsn(Parsed(u)).dsn);
            |read| == 7 &&
            read[0] == ("host", u.hostname) &&
            read[1] == ("user", Username(u)) &&
            read[2] == ("password", Password(u)) &&
            read[3] == ("dbname", TrimPrefix(u.path, "/")) &&
            read[4] == ("port", if u.port == "" then DEFAULT_PORT else u.port) &&
            read[5] == ("sslmode", if QueryGet(u.query, "sslmode") == "" then DEFAULT_SSLMODE
                                   else QueryGet(u.query, "sslmode")) &&
            read[6] == ("TimeZone", if QueryGet(u.query, "TimeZone") == "" then DEFAULT_TIMEZONE
                                    else QueryGet(u.query, "TimeZone"))
  {
    KeysArePlain();
    ReadPairsBack(KEYS, Values(u));
  }

  /** The database name loses one leading '/' and no more. */
  lemma DbNameTrimsOneSlash(u: PgUrl, name: string)
    ensures u.path == "/" + name ==> Values(u)[3] == name
    ensures (|u.path| == 0 || u.path[0] != '/') ==> Values(u)[3] == u.path
  {
    if u.path == "/" + name {
      assert HasPrefix(u.path, "/");
    }
  }
}
