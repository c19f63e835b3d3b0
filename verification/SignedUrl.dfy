/** Signed URLs: the printer, the parser, and what validation accepts. The keyed hash is an unknown
    function from key name and message to text; the server's clock is UTC. */
module SignedUrls {
  import opened Options
  import opened Text

  type Mac = (string, string) -> string

  /** UUID parsing: the canonical form of what is a UUID, None of what is not. */
  type Uuid = string -> Option<string>

  datatype SignedQuery = SignedQuery(expires: int, keyName: string, userId: string)

  function IntText(n: int): string {
    if n < 0 then ['-'] + Decimal(-n) else Decimal(n)
  }

  /** int() of a string: surrounding blanks, a sign, digits. */
  function ParseInt(s: string): Option<int> {
    var t := Strip(s);
    if IsInt(t) then Some(Digits(t))
    else if t != "" && t[0] == '-' && IsInt(t[1..]) then Some(-(Digits(t[1..]) as int))
    else if t != "" && t[0] == '+' && IsInt(t[1..]) then Some(Digits(t[1..]))
    else None
  }

  /** The query of a URL: after the first `?` of what precedes the first `#`. */
  function QueryOf(url: string): string {
    var u := url[..Find(url, '#')];
    var i := Find(u, '?');
    if i == |u| then "" else u[i + 1..]
  }

  /** Whether parse_qs finds a parameter. */
  predicate HasParams(query: string) {
    exists i | 0 <= i < |query| :: query[i] != '&'
  }

  function Unsigned(path: string, separator: char, q: SignedQuery): string {
    path + ([separator] + Params(q))
  }

  function Part(name: string, value: string): string { name + (['='] + value) }

  function Join(a: string, b: string): string { a + (['&'] + b) }

  function Params(q: SignedQuery): string {
    Join(Part("Expires", IntText(q.expires)), Join(Part("KeyName", q.keyName), Part("UserId", q.userId)))
  }

  /** sign_url. */
  function Sign(mac: Mac, url: string, q: SignedQuery): string {
    var stripped := Strip(url);
    var message := Unsigned(stripped, if HasParams(QueryOf(stripped)) then '&' else '?', q);
    Join(message, Part("Signature", mac(q.keyName, message)))
  }

  /** What is signed, and the signed URL, in full: the query is started on a plain path and continued after
      one that has a query. */
  lemma SignedText(mac: Mac, path: string, q: SignedQuery)
    requires path != "" && path[0] == '/' && forall i | 0 <= i < |path| :: path[i] > ' ' && path[i] != '?' && path[i] != '#'
    ensures var message := path + "?Expires=" + IntText(q.expires) + "&KeyName=" + q.keyName + "&UserId=" + q.userId;
      Sign(mac, path, q) == message + "&Signature=" + mac(q.keyName, message)
  {
    NoQuery(path);
    SignedWith(mac, path, '?', q);
    MessageIs(path, "?", q);
  }

  lemma SignedTextAfter(mac: Mac, path: string, query: string, q: SignedQuery)
    requires path != "" && path[0] == '/' && forall i | 0 <= i < |path| :: path[i] > ' ' && path[i] != '?' && path[i] != '#'
    requires query != "" && query[0] != '&' && forall i | 0 <= i < |query| :: query[i] > ' ' && query[i] != '#'
    ensures var message := path + "?" + query + "&Expires=" + IntText(q.expires) + "&KeyName=" + q.keyName + "&UserId=" + q.userId;
      Sign(mac, path + "?" + query, q) == message + "&Signature=" + mac(q.keyName, message)
  {
    WithQuery(path, query);
    SignedWith(mac, path + "?" + query, '&', q);
    MessageIs(path + "?" + query, "&", q);
  }

  lemma MessageIs(url: string, separator: string, q: SignedQuery)
    ensures url + separator + Params(q)
      == url + (separator + "Expires=") + IntText(q.expires) + "&KeyName=" + q.keyName + "&UserId=" + q.userId
    ensures "?" + "Expires=" == "?Expires=" && "&" + "Expires=" == "&Expires="
  {
    ParamsAre(q);
  }

  lemma ParamsAre(q: SignedQuery)
    ensures Params(q) == "Expires=" + IntText(q.expires) + "&KeyName=" + q.keyName + "&UserId=" + q.userId
  {
    var b, c := Part("KeyName", q.keyName), Part("UserId", q.userId);
    assert Join(b, c) == "KeyName=" + q.keyName + "&UserId=" + q.userId;
    assert Params(q) == Part("Expires", IntText(q.expires)) + (['&'] + ("KeyName=" + q.keyName + "&UserId=" + q.userId));
  }

  lemma SignedWith(mac: Mac, url: string, separator: char, q: SignedQuery)
    requires Strip(url) == url && separator == if HasParams(QueryOf(url)) then '&' else '?'
    ensures var message := url + [separator] + Params(q); Sign(mac, url, q) == message + "&Signature=" + mac(q.keyName, message)
  {
    var message := url + [separator] + Params(q);
    assert Unsigned(url, separator, q) == message;
    assert Join(message, Part("Signature", mac(q.keyName, message))) == message + "&Signature=" + mac(q.keyName, message);
  }

  lemma NoQuery(path: string)
    requires path != "" && forall i | 0 <= i < |path| :: path[i] > ' ' && path[i] != '?' && path[i] != '#'
    ensures Strip(path) == path && QueryOf(path) == ""
  {
    assert path[|path| - 1] > ' ' && path + "" == path;
    FindIs(path, '#', "");
    FindIs(path, '?', "");
    assert path[..|path|] == path;
  }

  lemma WithQuery(path: string, query: string)
    requires path != "" && forall i | 0 <= i < |path| :: path[i] > ' ' && path[i] != '?' && path[i] != '#'
    requires query != "" && query[0] != '&' && forall i | 0 <= i < |query| :: query[i] > ' ' && query[i] != '#'
    ensures var url := path + "?" + query; Strip(url) == url && HasParams(QueryOf(url))
  {
    var url := path + "?" + query;
    assert url[0] == path[0] && url[|url| - 1] == query[|query| - 1] && url + "" == url;
    FindIs(url, '#', "");
    assert url[..|url|] == url && url == path + (['?'] + query);
    FindIs(path, '?', ['?'] + query);
    assert url[|path| + 1..] == query;
  }

  /** query_to_dict: one entry for each part; None when a part has no `=`. */
  function ToDict(parts: seq<string>): Option<map<string, string>> {
    if parts == [] then Some(map[])
    else
      var last := Split(parts[|parts| - 1], '=');
      match ToDict(parts[..|parts| - 1])
      case None => None
      case Some(d) => if |last| < 2 then None else Some(d[last[0] := last[1]])
  }

  /** A part up to its first `=`, and from there to the next. */
  function NameOf(part: string): string { part[..Find(part, '=')] }

  function ValueOf(part: string): string {
    var i := Find(part, '=');
    var rest := if i == |part| then "" else part[i + 1..];
    rest[..Find(rest, '=')]
  }

  /** Part `i` is the last with the name. */
  predicate LastNamed(parts: seq<string>, i: nat, name: string) {
    i < |parts| && NameOf(parts[i]) == name && forall k | i < k < |parts| :: NameOf(parts[k]) != name
  }

  /** The dictionary maps each name to the value of the last part with that name, and nothing else. */
  ghost predicate HoldsLast(d: map<string, string>, parts: seq<string>) {
    && (forall name :: name in d <==> exists i: nat :: LastNamed(parts, i, name))
    && (forall i: nat, name | LastNamed(parts, i, name) :: name in d && d[name] == ValueOf(parts[i]))
  }

  /** A part is `name=value`, and after another `=` a rest that counts for nothing. */
  predicate IsPart(part: string, name: string, value: string, rest: string) {
    && '=' !in name && '=' !in value && (rest == "" || rest[0] == '=')
    && part == name + "=" + value + rest
  }

  predicate Names(part: string, name: string) {
    |name| < |part| && part[..|name|] == name && part[|name|] == '='
  }

  lemma PartIs(part: string, name: string, value: string, rest: string)
    requires IsPart(part, name, value, rest)
    ensures NameOf(part) == name && ValueOf(part) == value
  {
    var tail := value + rest;
    assert part == name + (['='] + tail);
    FindIs(name, '=', ['='] + tail);
    assert part[..|name|] == name && part[|name| + 1..] == tail;
    FindIs(value, '=', rest);
    assert tail[..|value|] == value;
  }

  /** Part `i` gives the name its value, and no later part has the name. */
  predicate LastPart(parts: seq<string>, i: nat, name: string, value: string, rest: string) {
    i < |parts| && IsPart(parts[i], name, value, rest) && forall k | i < k < |parts| :: !Names(parts[k], name)
  }

  lemma PartsNamed(parts: seq<string>)
    requires forall k | 0 <= k < |parts| :: '=' in parts[k]
    ensures forall i: nat, name, value, rest | LastPart(parts, i, name, value, rest) ::
      LastNamed(parts, i, name) && ValueOf(parts[i]) == value
  {
    forall i: nat, name, value, rest | LastPart(parts, i, name, value, rest)
      ensures LastNamed(parts, i, name) && ValueOf(parts[i]) == value
    {
      PartIs(parts[i], name, value, rest);
      forall k | i < k < |parts| ensures NameOf(parts[k]) != name {
        assert '=' in parts[k];
        assert Find(parts[k], '=') < |parts[k]|;
      }
    }
  }

  method QueryToDict(query: string) returns (d: Option<map<string, string>>)
    ensures d == None <==> exists part :: part in Split(query, '&') && '=' !in part
    ensures d.Some? ==> HoldsLast(d.value, Split(query, '&'))
    ensures d.Some? ==> forall i: nat, name, value, rest | LastPart(Split(query, '&'), i, name, value, rest) ::
      name in d.value && d.value[name] == value
    ensures d == ToDict(Split(query, '&'))
  {
    if !exists part :: part in Split(query, '&') && '=' !in part { PartsNamed(Split(query, '&')); }
    var params := Split(query, '&');
    ToDictHolds(params);
    var dict: map<string, string> := map[];
    var k := 0;
    while k < |params|
      invariant 0 <= k <= |params|
      invariant ToDict(params[..k]) == Some(dict)
    {
      assert params[..k + 1][..k] == params[..k];
      var parameter := Split(params[k], '=');
      if |parameter| < 2 {
        NoneStays(params, k + 1);
        return None;
      }
      dict := dict[parameter[0] := parameter[1]];
      k := k + 1;
    }
    assert params[..k] == params;
    return Some(dict);
  }

  lemma SplitAtEquals(part: string)
    ensures |Split(part, '=')| >= 2 <==> '=' in part
    ensures Split(part, '=')[0] == NameOf(part)
    ensures '=' in part ==> Split(part, '=')[1] == ValueOf(part)
  {
    var i := Find(part, '=');
    if i < |part| {
      assert part[i] == '=';
    } else {
      assert part[..i] == part;
    }
  }

  lemma LastOfLonger(before: seq<string>, part: string, i: nat, name: string)
    ensures LastNamed(before + [part], i, name) <==>
      if NameOf(part) == name then i == |before| else LastNamed(before, i, name)
  {
    var parts := before + [part];
    assert parts[|before|] == part && forall k | 0 <= k < |before| :: parts[k] == before[k];
  }

  /** The last value of each name wins, and one part without `=` spoils the query. */
  lemma {:induction false} ToDictHolds(parts: seq<string>)
    ensures ToDict(parts) == None <==> exists part :: part in parts && '=' !in part
    ensures ToDict(parts).Some? ==> HoldsLast(ToDict(parts).value, parts)
    decreases |parts|
  {
    if parts != [] {
      var before, part := parts[..|parts| - 1], parts[|parts| - 1];
      assert parts == before + [part];
      ToDictHolds(before);
      SplitAtEquals(part);
      assert forall p :: p in parts <==> p in before || p == part;
      if ToDict(parts).Some? { DictGrows(before, part); }
    }
  }

  lemma DictGrows(before: seq<string>, part: string)
    requires ToDict(before).Some? && HoldsLast(ToDict(before).value, before)
    ensures HoldsLast(ToDict(before).value[NameOf(part) := ValueOf(part)], before + [part])
  {
    var d, parts, name := ToDict(before).value, before + [part], NameOf(part);
    var e := d[name := ValueOf(part)];
    forall i: nat, n ensures LastNamed(parts, i, n) <==> if name == n then i == |before| else LastNamed(before, i, n) {
      LastOfLonger(before, part, i, n);
    }
    assert LastNamed(parts, |before|, name);
    forall n ensures n in e <==> exists i: nat :: LastNamed(parts, i, n) {
      if n != name {
        assert n in d <==> exists i: nat :: LastNamed(before, i, n);
        assert forall i: nat :: LastNamed(parts, i, n) <==> LastNamed(before, i, n);
      }
    }
    forall i: nat, n | LastNamed(parts, i, n) ensures n in e && e[n] == ValueOf(parts[i]) {
      if n != name { assert LastNamed(before, i, n) && parts[i] == before[i]; }
    }
  }

  lemma {:induction false} NoneStays(parts: seq<string>, k: nat)
    requires k <= |parts| && ToDict(parts[..k]) == None
    ensures ToDict(parts) == None
    decreases |parts| - k
  {
    if k < |parts| {
      assert parts[..k + 1][..k] == parts[..k];
      NoneStays(parts, k + 1);
    } else {
      assert parts[..k] == parts;
    }
  }

  /** The fields the query must have, each of its own kind. */
  function ParseQuery(uuid: Uuid, query: string): Option<SignedQuery> {
    match ToDict(Split(query, '&'))
    case None => None
    case Some(d) =>
      if "Expires" in d && "KeyName" in d && "UserId" in d && "Signature" in d && ParseInt(d["Expires"]).Some? && uuid(d["UserId"]).Some?
      then Some(SignedQuery(ParseInt(d["Expires"]).value, d["KeyName"], uuid(d["UserId"]).value))
      else None
  }

  /** The last `/`, or -1. */
  function LastSlash(s: string): (i: int)
    ensures -1 <= i < |s| && (i >= 0 ==> s[i] == '/') && forall k | i < k < |s| :: s[k] != '/'
  {
    if s == "" then -1
    else if s[|s| - 1] == '/' then |s| - 1
    else LastSlash(s[..|s| - 1])
  }

  /** urlparse cuts `;parameters` off the last segment of a path. */
  function DropParams(path: string): string {
    var at := if LastSlash(path) >= 0 then LastSlash(path) else 0;
    path[..at + Find(path[at..], ';')]
  }

  /** No `;` after the last slash. */
  predicate PlainLastSegment(path: string) {
    forall k | 0 <= k < |path| && path[k] == ';' :: exists m :: k < m < |path| && path[m] == '/'
  }

  /** The path and query of a request target. */
  function PathOf(target: string): string {
    var u := target[..Find(target, '#')];
    DropParams(u[..Find(u, '?')])
  }

  /** What verify_signed_url parses: the target between its first and its second `?`. */
  function FirstQuery(target: string): Option<string> {
    var parts := Split(target, '?');
    if |parts| < 2 then None else Some(parts[1])
  }

  predicate Verified(uuid: Uuid, target: string) {
    FirstQuery(target).Some? && ParseQuery(uuid, FirstQuery(target).value).Some?
  }

  /** verify_signed_url and then validate_signed_url: who the request is from; None when it is refused. */
  function Validate(mac: Mac, uuid: Uuid, target: string): Option<string> {
    if !Verified(uuid, target) then None
    else
      match ParseQuery(uuid, QueryOf(target))
      case None => None
      case Some(q) => if QueryOf(Sign(mac, PathOf(target), q)) == QueryOf(target) then Some(q.userId) else None
  }

  // The round trip.

  /** A path with no query or fragment character and no blank. */
  predicate PlainPath(path: string) {
    path != "" && path[0] == '/' && forall i | 0 <= i < |path| :: path[i] > ' ' && path[i] != '?' && path[i] != '#'
  }

  predicate PlainValue(v: string) {
    forall i | 0 <= i < |v| :: v[i] != '&' && v[i] != '=' && v[i] != '#' && v[i] != '?'
  }

  predicate PlainMac(mac: Mac, key: string, message: string) {
    '&' !in mac(key, message) && '#' !in mac(key, message) && '?' !in mac(key, message)
  }

  lemma PlainStrip(path: string)
    requires PlainPath(path)
    ensures Strip(path) == path
  {
    assert path[|path| - 1] > ' ';
  }

  lemma StripTight(s: string)
    requires s != "" && !IsSpace(s[0]) && !IsSpace(s[|s| - 1])
    ensures Strip(s) == s
  {
  }

  lemma NatTextPlain(n: nat)
    ensures PlainValue(Decimal(n)) && Decimal(n) != "" && ParseInt(Decimal(n)) == Some(n)
  {
    DecimalParses(n);
    StripTight(Decimal(n));
  }

  lemma NegativeTextPlain(n: nat)
    requires n > 0
    ensures var r := ParseInt(['-'] + Decimal(n)); PlainValue(['-'] + Decimal(n)) && r.Some? && r.value + n == 0
  {
    var d := Decimal(n);
    var s := ['-'] + d;
    DecimalParses(n);
    assert s[1..] == d && s[|s| - 1] == d[|d| - 1];
    StripTight(s);
  }

  lemma IntTextPlain(n: int)
    ensures PlainValue(IntText(n)) && IntText(n) != ""
    ensures ParseInt(IntText(n)) == Some(n)
  {
    if n < 0 { NegativeTextPlain(-n); } else { NatTextPlain(n); }
  }

  function SignatureOf(mac: Mac, path: string, q: SignedQuery): string {
    mac(q.keyName, Unsigned(path, '?', q))
  }

  /** What signing adds to a plain path. */
  function SignedParams(mac: Mac, path: string, q: SignedQuery): string {
    Join(Params(q), Part("Signature", SignatureOf(mac, path, q)))
  }

  lemma NoHashIn(q: SignedQuery)
    requires PlainValue(q.keyName) && PlainValue(q.userId)
    ensures '#' !in Params(q) && '?' !in Params(q)
  {
    IntTextPlain(q.expires);
  }

  /** Signing a plain path appends a query. */
  lemma SignAppends(mac: Mac, path: string, q: SignedQuery)
    requires PlainPath(path)
    ensures Sign(mac, path, q) == path + (['?'] + SignedParams(mac, path, q))
  {
    PlainStrip(path);
    assert path + "" == path;
    FindIs(path, '#', "");
    FindIs(path, '?', "");
    assert path[..|path|] == path && QueryOf(path) == "";
  }

  lemma QueryAfter(path: string, params: string)
    requires PlainPath(path) && '#' !in params
    ensures var url := path + (['?'] + params); QueryOf(url) == params && PathOf(url) == DropParams(path)
  {
    var tail := ['?'] + params;
    var url := path + tail;
    FindIs(url, '#', "");
    assert url + "" == url && url[..|url|] == url;
    FindIs(path, '?', tail);
    assert url[|path| + 1..] == params && url[..|path|] == path;
  }

  /** And that query is read back whole. */
  lemma SignedSplits(mac: Mac, path: string, q: SignedQuery)
    requires PlainPath(path) && PlainValue(q.keyName) && PlainValue(q.userId) && '#' !in SignatureOf(mac, path, q)
    ensures Sign(mac, path, q) == path + (['?'] + SignedParams(mac, path, q))
    ensures QueryOf(Sign(mac, path, q)) == SignedParams(mac, path, q)
    ensures PathOf(Sign(mac, path, q)) == DropParams(path)
  {
    SignAppends(mac, path, q);
    NoHashIn(q);
    QueryAfter(path, SignedParams(mac, path, q));
  }

  /** The two ways of taking the query of a target agree when it has one `?` and no `#`. */
  lemma OneQuery(path: string, params: string)
    requires '?' !in path && '?' !in params
    ensures FirstQuery(path + (['?'] + params)) == Some(params)
  {
    SplitNext(path, '?', params);
    SplitOne(params, '?');
  }

  lemma SignedIsVerified(mac: Mac, uuid: Uuid, path: string, q: SignedQuery)
    requires PlainPath(path) && PlainValue(q.keyName) && PlainValue(q.userId) && uuid(q.userId) == Some(q.userId)
    requires PlainMac(mac, q.keyName, Unsigned(path, '?', q))
    ensures Verified(uuid, Sign(mac, path, q))
  {
    SignAppends(mac, path, q);
    NoHashIn(q);
    OneQuery(path, SignedParams(mac, path, q));
    FieldsRecovered(mac, uuid, path, q);
  }

  predicate PlainName(name: string) {
    '=' !in name && '&' !in name
  }

  lemma NamesPlain()
    ensures PlainName("Expires") && PlainName("KeyName") && PlainName("UserId") && PlainName("Signature")
  {
  }

  lemma JoinAssociates(a: string, b: string, c: string)
    ensures Join(Join(a, b), c) == Join(a, Join(b, c))
  {
  }

  lemma SplitJoin(a: string, b: string, parts: seq<string>)
    requires '&' !in a && Split(b, '&') == parts
    ensures Split(Join(a, b), '&') == [a] + parts
  {
    SplitNext(a, '&', b);
  }

  lemma TwoParts(c: string, d: string)
    requires '&' !in c && '&' !in d
    ensures Split(Join(c, d), '&') == [c, d]
  {
    SplitOne(d, '&');
    SplitJoin(c, d, [d]);
  }

  lemma ThreeParts(b: string, c: string, d: string)
    requires '&' !in b && '&' !in c && '&' !in d
    ensures Split(Join(b, Join(c, d)), '&') == [b, c, d]
  {
    TwoParts(c, d);
    SplitJoin(b, Join(c, d), [c, d]);
  }

  lemma FourItems<T>(a: T, b: T, c: T, d: T)
    ensures [a] + [b, c, d] == [a, b, c, d]
  {
  }

  lemma FourParts(a: string, b: string, c: string, d: string)
    requires '&' !in a && '&' !in b && '&' !in c && '&' !in d
    ensures Split(Join(a, Join(b, Join(c, d))), '&') == [a, b, c, d]
  {
    ThreeParts(b, c, d);
    SplitJoin(a, Join(b, Join(c, d)), [b, c, d]);
    FourItems(a, b, c, d);
  }

  /** Up to the first `=`. */
  function Head(s: string): string { s[..Find(s, '=')] }

  lemma PlainHead(v: string)
    requires '=' !in v
    ensures Head(v) == v
  {
    FindIs(v, '=', "");
    assert v + "" == v;
  }

  lemma ToDictNext(parts: seq<string>, name: string, value: string, d: map<string, string>)
    requires ToDict(parts) == Some(d) && '=' !in name
    ensures ToDict(parts + [Part(name, value)]) == Some(d[name := Head(value)])
  {
    var part := Part(name, value);
    var all := parts + [part];
    assert all[|all| - 1] == part && all[..|all| - 1] == parts;
    SplitNext(name, '=', value);
    assert Split(value, '=')[0] == Head(value);
  }

  lemma FourFields(n: seq<string>, v: seq<string>)
    requires |n| == |v| == 4 && '=' !in n[0] && '=' !in n[1] && '=' !in n[2] && '=' !in n[3]
    ensures ToDict([Part(n[0], v[0]), Part(n[1], v[1]), Part(n[2], v[2]), Part(n[3], v[3])]) ==
      Some(map[][n[0] := Head(v[0])][n[1] := Head(v[1])][n[2] := Head(v[2])][n[3] := Head(v[3])])
  {
    var p := [Part(n[0], v[0]), Part(n[1], v[1]), Part(n[2], v[2]), Part(n[3], v[3])];
    ToDictNext([], n[0], v[0], map[]);
    assert [] + [p[0]] == [p[0]];
    ToDictNext([p[0]], n[1], v[1], map[][n[0] := Head(v[0])]);
    assert [p[0]] + [p[1]] == [p[0], p[1]];
    ToDictNext([p[0], p[1]], n[2], v[2], map[][n[0] := Head(v[0])][n[1] := Head(v[1])]);
    assert [p[0], p[1]] + [p[2]] == [p[0], p[1], p[2]];
    ToDictNext([p[0], p[1], p[2]], n[3], v[3], map[][n[0] := Head(v[0])][n[1] := Head(v[1])][n[2] := Head(v[2])]);
    assert [p[0], p[1], p[2]] + [p[3]] == p;
  }

  /** The four parts of a signed query. */
  lemma PartsOf(mac: Mac, path: string, q: SignedQuery)
    requires PlainValue(q.keyName) && PlainValue(q.userId) && '&' !in SignatureOf(mac, path, q)
    ensures Split(SignedParams(mac, path, q), '&') ==
      [Part("Expires", IntText(q.expires)), Part("KeyName", q.keyName), Part("UserId", q.userId), Part("Signature", SignatureOf(mac, path, q))]
  {
    var a, b := Part("Expires", IntText(q.expires)), Part("KeyName", q.keyName);
    var c, d := Part("UserId", q.userId), Part("Signature", SignatureOf(mac, path, q));
    NamesPlain();
    IntTextPlain(q.expires);
    JoinAssociates(a, Join(b, c), d);
    JoinAssociates(b, c, d);
    FourParts(a, b, c, d);
  }

  /** The signed query parses, and its fields are the ones that were signed. */
  lemma FieldsRecovered(mac: Mac, uuid: Uuid, path: string, q: SignedQuery)
    requires PlainValue(q.keyName) && PlainValue(q.userId) && '&' !in SignatureOf(mac, path, q) && uuid(q.userId) == Some(q.userId)
    ensures ParseQuery(uuid, SignedParams(mac, path, q)) == Some(q)
  {
    PartsOf(mac, path, q);
    IntTextPlain(q.expires);
    NamesPlain();
    PlainHead(IntText(q.expires));
    PlainHead(q.keyName);
    PlainHead(q.userId);
    var e, hash := IntText(q.expires), SignatureOf(mac, path, q);
    FourFields(["Expires", "KeyName", "UserId", "Signature"], [e, q.keyName, q.userId, hash]);
    LookFour(e, q.keyName, q.userId, Head(hash));
    assert ToDict(Split(SignedParams(mac, path, q), '&'))
      == Some(map[]["Expires" := e]["KeyName" := q.keyName]["UserId" := q.userId]["Signature" := Head(hash)]);
  }

  lemma LookFour(e: string, k: string, u: string, s: string)
    ensures var d := map[]["Expires" := e]["KeyName" := k]["UserId" := u]["Signature" := s];
      && "Expires" in d && "KeyName" in d && "UserId" in d && "Signature" in d
      && d["Expires"] == e && d["KeyName"] == k && d["UserId"] == u
  {
    assert "Expires"[0] == 'E' && "KeyName"[0] == 'K' && "UserId"[0] == 'U' && "Signature"[0] == 'S';
  }

  /** Signing and then validating. A plain path signed for a plain key and a canonical user id is
      accepted, for that user, exactly when the hash cannot tell the path from the path without the
      parameters of its last segment. */
  lemma SignedIsAcceptedIff(mac: Mac, uuid: Uuid, path: string, q: SignedQuery)
    requires PlainPath(path) && PlainValue(q.keyName) && PlainValue(q.userId) && uuid(q.userId) == Some(q.userId)
    requires forall message :: PlainMac(mac, q.keyName, message)
    ensures ParseQuery(uuid, QueryOf(Sign(mac, path, q))) == Some(q)
    ensures Validate(mac, uuid, Sign(mac, path, q)) ==
      if SignatureOf(mac, DropParams(path), q) == SignatureOf(mac, path, q) then Some(q.userId) else None
  {
    assert PlainMac(mac, q.keyName, Unsigned(path, '?', q)) && PlainMac(mac, q.keyName, Unsigned(DropParams(path), '?', q));
    SignedSplits(mac, path, q);
    SignedIsVerified(mac, uuid, path, q);
    FieldsRecovered(mac, uuid, path, q);
    DropPlain(path);
    SignedSplits(mac, DropParams(path), q);
    SameParams(mac, DropParams(path), path, q);
  }

  /** The hash does not confuse the two texts. */
  predicate Tells(mac: Mac, key: string, m: string, n: string) {
    mac(key, m) == mac(key, n) ==> m == n
  }

  /** With a hash that does not confuse the path with the path cut short, a signed plain path is accepted
      exactly when there is no `;` in its last segment. */
  lemma SignedIsAcceptedExactly(mac: Mac, uuid: Uuid, path: string, q: SignedQuery)
    requires PlainPath(path) && PlainValue(q.keyName) && PlainValue(q.userId) && uuid(q.userId) == Some(q.userId)
    requires forall message :: PlainMac(mac, q.keyName, message)
    requires Tells(mac, q.keyName, Unsigned(DropParams(path), '?', q), Unsigned(path, '?', q))
    ensures Validate(mac, uuid, Sign(mac, path, q)) == if PlainLastSegment(path) then Some(q.userId) else None
  {
    SignedIsAcceptedIff(mac, uuid, path, q);
    if PlainLastSegment(path) {
      DropNothing(path);
    } else {
      DropSomething(path);
      assert |Unsigned(DropParams(path), '?', q)| < |Unsigned(path, '?', q)|;
    }
  }

  lemma DropSomething(path: string)
    requires PlainPath(path) && !PlainLastSegment(path)
    ensures |DropParams(path)| < |path|
  {
    var at := if LastSlash(path) >= 0 then LastSlash(path) else 0;
    var k :| 0 <= k < |path| && path[k] == ';' && forall m | k < m < |path| :: path[m] != '/';
    assert LastSlash(path) < k && path[at..][k - at] == ';';
  }

  lemma SemicolonPath()
    ensures PlainPath("/f;v") && !PlainLastSegment("/f;v") && DropParams("/f;v") == "/f"
  {
    var path := "/f;v";
    assert path[0] == '/' && path[1] == 'f' && path[2] == ';' && path[3] == 'v';
    assert LastSlash(path) < 1;
    assert path[2] == ';' && forall m | 2 < m < |path| :: path[m] != '/';
    assert path[0..] == path;
    assert "/f" + ([';'] + "v") == path;
    FindIs("/f", ';', [';'] + "v");
  }

  /** A signed path that is refused. */
  lemma SemicolonIsRefused(mac: Mac, uuid: Uuid, q: SignedQuery)
    requires PlainValue(q.keyName) && PlainValue(q.userId) && uuid(q.userId) == Some(q.userId)
    requires forall message :: PlainMac(mac, q.keyName, message)
    requires Tells(mac, q.keyName, Unsigned("/f", '?', q), Unsigned("/f;v", '?', q))
    ensures Validate(mac, uuid, Sign(mac, "/f;v", q)) == None
  {
    SemicolonPath();
    SignedIsAcceptedExactly(mac, uuid, "/f;v", q);
  }

  /** So without a `;` in the last segment every signed URL is accepted. */
  lemma SignedIsAccepted(mac: Mac, uuid: Uuid, path: string, q: SignedQuery)
    requires PlainPath(path) && PlainValue(q.keyName) && PlainValue(q.userId) && uuid(q.userId) == Some(q.userId)
    requires forall message :: PlainMac(mac, q.keyName, message)
    requires PlainLastSegment(path)
    ensures Validate(mac, uuid, Sign(mac, path, q)) == Some(q.userId)
  {
    SignedIsAcceptedIff(mac, uuid, path, q);
    DropNothing(path);
  }

  lemma QueryIsFirst(target: string)
    requires '#' !in target && '?' in target && '?' !in QueryOf(target)
    ensures FirstQuery(target) == Some(QueryOf(target))
  {
    FindIs(target, '#', "");
    assert target + "" == target && target[..|target|] == target;
    var i := Find(target, '?');
    assert target == target[..i] + (['?'] + target[i + 1..]);
    OneQuery(target[..i], target[i + 1..]);
  }

  /** Conversely, whatever is accepted carries the hash of its own path and fields. */
  lemma AcceptedIsSigned(mac: Mac, uuid: Uuid, target: string)
    requires '#' !in target && PlainPath(PathOf(target)) && ParseQuery(uuid, QueryOf(target)).Some?
    requires var q := ParseQuery(uuid, QueryOf(target)).value;
      PlainValue(q.keyName) && PlainValue(q.userId) && forall message :: PlainMac(mac, q.keyName, message)
    ensures var q := ParseQuery(uuid, QueryOf(target)).value;
      Validate(mac, uuid, target).Some? <==> QueryOf(target) == SignedParams(mac, PathOf(target), q)
  {
    var q := ParseQuery(uuid, QueryOf(target)).value;
    assert PlainMac(mac, q.keyName, Unsigned(PathOf(target), '?', q));
    SignedSplits(mac, PathOf(target), q);
    if QueryOf(target) == SignedParams(mac, PathOf(target), q) { SignedQueryIsFirst(mac, target, PathOf(target), q); }
  }

  /** For a plain path without `;` in its last segment: a query is accepted exactly when it is the fields it
      parses to, written out, and the hash of the path with them. */
  lemma AcceptedQueryIs(mac: Mac, uuid: Uuid, path: string, query: string)
    requires PlainPath(path) && PlainLastSegment(path) && '#' !in query && ParseQuery(uuid, query).Some?
    requires var q := ParseQuery(uuid, query).value;
      PlainValue(q.keyName) && PlainValue(q.userId) && forall message :: PlainMac(mac, q.keyName, message)
    ensures var q := ParseQuery(uuid, query).value;
      var fields := "Expires=" + IntText(q.expires) + "&KeyName=" + q.keyName + "&UserId=" + q.userId;
      Validate(mac, uuid, path + "?" + query) ==
        if query == fields + "&Signature=" + mac(q.keyName, path + "?" + fields) then Some(q.userId) else None
  {
    var q := ParseQuery(uuid, query).value;
    TargetIs(path, query);
    AcceptedIsSigned(mac, uuid, path + "?" + query);
    SignedParamsAre(mac, path, q);
  }

  lemma TargetIs(path: string, query: string)
    requires PlainPath(path) && PlainLastSegment(path) && '#' !in query
    ensures var target := path + "?" + query; '#' !in target && QueryOf(target) == query && PathOf(target) == path
  {
    assert path + "?" + query == path + (['?'] + query);
    QueryAfter(path, query);
    DropNothing(path);
  }

  lemma SignedParamsAre(mac: Mac, path: string, q: SignedQuery)
    ensures var fields := "Expires=" + IntText(q.expires) + "&KeyName=" + q.keyName + "&UserId=" + q.userId;
      SignedParams(mac, path, q) == fields + "&Signature=" + mac(q.keyName, path + "?" + fields)
  {
    ParamsAre(q);
    assert path + (['?'] + Params(q)) == path + "?" + Params(q);
    var hash := SignatureOf(mac, path, q);
    assert Params(q) + (['&'] + ("Signature" + (['='] + hash))) == Params(q) + "&Signature=" + hash;
  }

  lemma SignedQueryIsFirst(mac: Mac, target: string, path: string, q: SignedQuery)
    requires '#' !in target && PlainValue(q.keyName) && PlainValue(q.userId) && '?' !in SignatureOf(mac, path, q)
    requires QueryOf(target) == SignedParams(mac, path, q)
    ensures FirstQuery(target) == Some(QueryOf(target))
  {
    NoHashIn(q);
    HasQuery(target);
    QueryIsFirst(target);
  }

  lemma HasQuery(target: string)
    requires QueryOf(target) != ""
    ensures '?' in target
  {
    var u := target[..Find(target, '#')];
    assert u[Find(u, '?')] == '?';
  }

  lemma SameParams(mac: Mac, a: string, b: string, q: SignedQuery)
    ensures SignedParams(mac, a, q) == SignedParams(mac, b, q) <==> SignatureOf(mac, a, q) == SignatureOf(mac, b, q)
  {
    var x, y := SignedParams(mac, a, q), SignedParams(mac, b, q);
    var n := |Params(q)| + 1 + |"Signature"| + 1;
    assert x[n..] == SignatureOf(mac, a, q) && y[n..] == SignatureOf(mac, b, q);
  }

  lemma DropPlain(path: string)
    requires PlainPath(path)
    ensures PlainPath(DropParams(path))
  {
    var at := if LastSlash(path) >= 0 then LastSlash(path) else 0;
    assert path[at..][0] == '/';
  }

  lemma DropNothing(path: string)
    requires PlainPath(path) && PlainLastSegment(path)
    ensures DropParams(path) == path
  {
    var at := LastSlash(path);
    var segment := path[at..];
    assert forall k | 0 <= k < |segment| :: segment[k] == path[at + k] && segment[k] != ';';
  }
}
