/** Range headers: the regular-expression scan, the byte range it yields, and the bytes streamed
    for it (byte ranges: section 14.1.2 of RFC 9110). */
module ByteRanges {
  import opened Options
  import opened Text

  type Bytes = seq<bv8>

  datatype ByteRange = ByteRange(start: int, end: Option<int>, range: Option<int>)

  predicate IsWord(c: char) { IsDigit(c) || 'a' <= c <= 'z' || 'A' <= c <= 'Z' || c == '_' }

  /** A word character is a letter in either case, a digit or an underscore. */
  lemma WordCharacters(c: char)
    ensures IsWord(c) <==> c == '_' || '0' <= c <= '9' || exists d :: 'a' <= d <= 'z' && IsCaseOf(c, d)
  {
    if 'A' <= c <= 'Z' { assert IsCaseOf(c, LowerChar(c)); } else { assert IsCaseOf(c, c); }
  }

  predicate Words(s: string, lo: nat, hi: nat) {
    hi <= |s| && forall i | lo <= i < hi :: IsWord(s[i])
  }

  /** The length of the longest prefix of word characters. */
  function WordRun(s: string): (n: nat)
    ensures Words(s, 0, n) && (n < |s| ==> !IsWord(s[n]))
  {
    if s == "" || !IsWord(s[0]) then 0
    else
      var n := WordRun(s[1..]);
      assert forall i | 0 < i < n + 1 :: s[i] == s[1..][i - 1];
      n + 1
  }

  /** How much of `s`, from its start, the pattern matches: word-dash-word, else word-dash, else dash-word. */
  function MatchHead(s: string): (r: Option<nat>)
    ensures r.Some? ==> 0 < r.value <= |s|
  {
    var n := WordRun(s);
    if n < |s| && s[n] == '-' && (n > 0 || WordRun(s[1..]) > 0) then Some(n + 1 + WordRun(s[n + 1..])) else None
  }

  predicate WordDashWord(s: string, n: nat, m: nat) {
    n > 0 && m > 0 && n + 1 + m <= |s| && Words(s, 0, n) && s[n] == '-' && Words(s, n + 1, n + 1 + m)
  }

  predicate WordDash(s: string, n: nat) {
    n > 0 && n < |s| && Words(s, 0, n) && s[n] == '-'
  }

  predicate DashWord(s: string, m: nat) {
    m > 0 && 1 + m <= |s| && s[0] == '-' && Words(s, 1, 1 + m)
  }

  lemma RunIsUnique(s: string, n: nat)
    requires n < |s| && Words(s, 0, n) && s[n] == '-'
    ensures WordRun(s) == n
  {
  }

  lemma RunIsLongest(s: string, k: nat, m: nat)
    requires k + m <= |s| && Words(s, k, k + m)
    ensures m <= WordRun(s[k..])
  {
    assert forall i | 0 <= i < m :: IsWord(s[k..][i]);
  }

  lemma MatchesEndAtRuns(s: string)
    ensures forall x: nat, y: nat | WordDashWord(s, x, y) :: x == WordRun(s) && y <= WordRun(s[x + 1..])
    ensures forall x: nat | WordDash(s, x) :: x == WordRun(s)
    ensures forall y: nat | DashWord(s, y) :: WordRun(s) == 0 && y <= WordRun(s[1..])
  {
    forall x: nat, y: nat | WordDashWord(s, x, y) ensures x == WordRun(s) && y <= WordRun(s[x + 1..]) {
      RunIsUnique(s, x);
      RunIsLongest(s, x + 1, y);
    }
    forall x: nat | WordDash(s, x) ensures x == WordRun(s) { RunIsUnique(s, x); }
    forall y: nat | DashWord(s, y) ensures WordRun(s) == 0 && y <= WordRun(s[1..]) { RunIsLongest(s, 1, y); }
  }

  lemma WordsLater(s: string, k: nat, m: nat)
    requires k <= |s| && m <= |s| - k && Words(s[k..], 0, m)
    ensures Words(s, k, k + m)
  {
    assert forall i | k <= i < k + m :: s[i] == s[k..][i - k];
  }

  lemma RunsMatch(s: string)
    ensures var r := WordRun(s); r < |s| && s[r] == '-' ==>
      var m := WordRun(s[r + 1..]);
      && (r > 0 && m > 0 ==> WordDashWord(s, r, m))
      && (r > 0 ==> WordDash(s, r))
      && (r == 0 && m > 0 ==> DashWord(s, m))
  {
    var r := WordRun(s);
    if r < |s| && s[r] == '-' { WordsLater(s, r + 1, WordRun(s[r + 1..])); }
  }

  /** `MatchHead` is the regular expression: the first alternative that matches at all, and of its
      matches the one with the longest first word, then the longest second. */
  lemma MatchIsOrderedAndGreedy(s: string)
    ensures (exists n, m :: WordDashWord(s, n, m)) ==>
      exists n, m :: WordDashWord(s, n, m) && MatchHead(s) == Some(n + 1 + m)
        && forall x, y | WordDashWord(s, x, y) :: x <= n && (x == n ==> y <= m)
    ensures (forall n, m :: !WordDashWord(s, n, m)) && (exists n :: WordDash(s, n)) ==>
      exists n :: WordDash(s, n) && MatchHead(s) == Some(n + 1) && forall x | WordDash(s, x) :: x <= n
    ensures (forall n, m :: !WordDashWord(s, n, m)) && (forall n :: !WordDash(s, n)) && (exists m :: DashWord(s, m)) ==>
      exists m :: DashWord(s, m) && MatchHead(s) == Some(1 + m) && forall y | DashWord(s, y) :: y <= m
    ensures MatchHead(s) == None <==>
      (forall n, m :: !WordDashWord(s, n, m)) && (forall n :: !WordDash(s, n)) && (forall m :: !DashWord(s, m))
  {
    MatchesEndAtRuns(s);
    RunsMatch(s);
  }

  /** re.findall: leftmost matches, each search resuming where the last match ended. */
  function FindAll(s: string): seq<string>
    decreases |s|
  {
    if s == "" then []
    else
      match MatchHead(s)
      case None => FindAll(s[1..])
      case Some(n) => [s[..n]] + FindAll(s[n..])
  }

  /** One token of the scan: the words before and after its dash; None when int() or the range check raises. */
  function ParseToken(t: string): Option<ByteRange> {
    var n := WordRun(t);
    if n >= |t| then None
    else
      var a, b := t[..n], t[n + 1..];
      if (a != "" && !IsInt(a)) || (b != "" && !IsInt(b)) then None
      else MakeRange(if a == "" then 0 else Digits(a), if b == "" then None else Some(Digits(b)))
  }

  /** ByteRange(start, end): an end must lie past the start. */
  function MakeRange(start: int, end: Option<int>): (r: Option<ByteRange>)
    ensures r.Some? <==> (end.Some? ==> start < end.value)
    ensures r.Some? ==> r.value.start == start && r.value.end == end && (r.value.range.Some? <==> end.Some?)
    ensures r.Some? && end.Some? ==> r.value.range == Some(end.value - start + 1)
  {
    match end
    case None => Some(ByteRange(start, None, None))
    case Some(e) => if start < e then Some(ByteRange(start, end, Some(e - start + 1))) else None
  }

  function ParseAll(tokens: seq<string>): Option<seq<ByteRange>> {
    if tokens == [] then Some([])
    else
      match ParseToken(tokens[0])
      case None => None
      case Some(r) =>
        match ParseAll(tokens[1..])
        case None => None
        case Some(rest) => Some([r] + rest)
  }

  /** compile_byte_ranges; None when it raises. */
  function Compile(header: string): Option<seq<ByteRange>> {
    if Contains(header, "bytes=") then ParseAll(FindAll(header)) else None
  }

  // Printing, and the round trip.

  datatype Spec = FromTo(a: nat, b: nat) | From(a: nat)

  function PrintSpec(x: Spec): string {
    match x
    case FromTo(a, b) => Decimal(a) + "-" + Decimal(b)
    case From(a) => Decimal(a) + "-"
  }

  function PrintAll(xs: seq<Spec>): string {
    if xs == [] then "" else if |xs| == 1 then PrintSpec(xs[0]) else PrintSpec(xs[0]) + "," + PrintAll(xs[1..])
  }

  function RangeOf(x: Spec): ByteRange {
    match x
    case FromTo(a, b) => ByteRange(a, Some(b), Some(b - a + 1))
    case From(a) => ByteRange(a, None, None)
  }

  predicate Proper(x: Spec) { x.FromTo? ==> x.a < x.b }

  lemma WordsThen(w: string, rest: string)
    requires Words(w, 0, |w|) && (rest == "" || !IsWord(rest[0]))
    ensures WordRun(w + rest) == |w|
  {
    assert forall i | 0 <= i < |w| :: (w + rest)[i] == w[i];
    assert rest != "" ==> (w + rest)[|w|] == rest[0];
  }

  function EndOf(x: Spec): string { if x.FromTo? then Decimal(x.b) else "" }

  lemma DashMatches(a: string, b: string, rest: string)
    requires a != "" && Words(a, 0, |a|) && Words(b, 0, |b|) && (rest == "" || !IsWord(rest[0]))
    ensures MatchHead(a + (['-'] + (b + rest))) == Some(|a| + 1 + |b|)
  {
    var tail := ['-'] + (b + rest);
    var s := a + tail;
    WordsThen(a, tail);
    assert s[|a|] == '-' && s[|a| + 1..] == b + rest;
    WordsThen(b, rest);
  }

  lemma Regroup(a: string, dash: string, b: string, rest: string)
    ensures (a + (dash + b)) + rest == a + (dash + (b + rest))
  {
  }

  lemma SpecParts(x: Spec)
    ensures PrintSpec(x) == Decimal(x.a) + (['-'] + EndOf(x))
    ensures Words(Decimal(x.a), 0, |Decimal(x.a)|) && Words(EndOf(x), 0, |EndOf(x)|)
  {
  }

  lemma TokenMatches(x: Spec, rest: string)
    requires rest == "" || rest[0] == ','
    ensures MatchHead(PrintSpec(x) + rest) == Some(|PrintSpec(x)|)
  {
    SpecParts(x);
    Regroup(Decimal(x.a), ['-'], EndOf(x), rest);
    DashMatches(Decimal(x.a), EndOf(x), rest);
  }

  /** A token is parsed as the words on either side of its dash. */
  lemma TokenParts(a: string, b: string)
    requires Words(a, 0, |a|)
    requires a != "" ==> IsInt(a)
    requires b != "" ==> IsInt(b)
    ensures ParseToken(a + (['-'] + b)) == MakeRange(if a == "" then 0 else Digits(a), if b == "" then None else Some(Digits(b)))
  {
    var t := a + (['-'] + b);
    WordsThen(a, ['-'] + b);
    assert t[..|a|] == a && t[|a| + 1..] == b;
  }

  lemma TokenParses(x: Spec)
    ensures ParseToken(PrintSpec(x)) == if Proper(x) then Some(RangeOf(x)) else None
  {
    SpecParts(x);
    DecimalParses(x.a);
    match x {
      case FromTo(a, b) =>
        DecimalParses(b);
        TokenParts(Decimal(a), Decimal(b));
      case From(a) => TokenParts(Decimal(a), "");
    }
  }

  function RangesOf(xs: seq<Spec>): seq<ByteRange> {
    seq(|xs|, i requires 0 <= i < |xs| => RangeOf(xs[i]))
  }

  lemma NoRanges()
    ensures ParseAll(FindAll(PrintAll([]))) == Some(RangesOf([]))
  {
    assert RangesOf([]) == [];
  }

  lemma RangesNext(xs: seq<Spec>)
    requires xs != []
    ensures [RangeOf(xs[0])] + RangesOf(xs[1..]) == RangesOf(xs)
  {
  }

  /** A separator matches nothing. */
  lemma SeparatorSkipped(c: char, s: string)
    requires !IsWord(c) && c != '-'
    ensures FindAll([c] + s) == FindAll(s)
  {
    assert ([c] + s)[1..] == s;
  }

  lemma TokenFound(t: string, rest: string)
    requires t != "" && MatchHead(t + rest) == Some(|t|)
    ensures FindAll(t + rest) == [t] + FindAll(rest)
  {
    assert (t + rest)[..|t|] == t && (t + rest)[|t|..] == rest;
  }

  lemma ParseNext(t: string, tokens: seq<string>, r: ByteRange, rest: seq<ByteRange>)
    requires ParseToken(t) == Some(r) && ParseAll(tokens) == Some(rest)
    ensures ParseAll([t] + tokens) == Some([r] + rest)
  {
    assert ([t] + tokens)[1..] == tokens;
  }

  /** The first range of a list is found, then the others. */
  lemma FirstFound(xs: seq<Spec>)
    requires xs != []
    ensures FindAll(PrintAll(xs)) == [PrintSpec(xs[0])] + FindAll(PrintAll(xs[1..]))
  {
    var t := PrintSpec(xs[0]);
    var rest := if |xs| == 1 then "" else [','] + PrintAll(xs[1..]);
    assert PrintAll(xs) == t + rest;
    TokenMatches(xs[0], rest);
    SpecParts(xs[0]);
    TokenFound(t, rest);
    SeparatorSkipped(',', PrintAll(xs[1..]));
  }

  lemma FirstParsed(xs: seq<Spec>, rest: seq<ByteRange>)
    requires xs != [] && Proper(xs[0]) && ParseAll(FindAll(PrintAll(xs[1..]))) == Some(rest)
    ensures ParseAll(FindAll(PrintAll(xs))) == Some([RangeOf(xs[0])] + rest)
  {
    FirstFound(xs);
    TokenParses(xs[0]);
    ParseNext(PrintSpec(xs[0]), FindAll(PrintAll(xs[1..])), RangeOf(xs[0]), rest);
  }

  lemma {:induction false} ListScans(xs: seq<Spec>)
    requires forall i | 0 <= i < |xs| :: Proper(xs[i])
    ensures ParseAll(FindAll(PrintAll(xs))) == Some(RangesOf(xs))
    decreases |xs|
  {
    if xs == [] {
      NoRanges();
    } else {
      ListScans(xs[1..]);
      FirstParsed(xs, RangesOf(xs[1..]));
      RangesNext(xs);
    }
  }

  lemma {:induction false} PrefixSkipped(w: string, body: string)
    requires Words(w, 0, |w|)
    ensures FindAll(w + (['='] + body)) == FindAll(body)
    decreases |w|
  {
    var tail := ['='] + body;
    WordsThen(w, tail);
    if w == "" {
      assert w + tail == tail;
      SeparatorSkipped('=', body);
    } else {
      assert (w + tail)[1..] == w[1..] + tail;
      assert forall i | 0 <= i < |w| - 1 :: w[1..][i] == w[i + 1];
      PrefixSkipped(w[1..], body);
    }
  }

  /** Printing any list of ranges as a header and compiling it gives the list back. */
  lemma HeaderRoundTrip(xs: seq<Spec>)
    requires forall i | 0 <= i < |xs| :: Proper(xs[i])
    ensures Compile("bytes=" + PrintAll(xs)) == Some(RangesOf(xs))
  {
    CompileHeader(PrintAll(xs));
    ListScans(xs);
  }

  lemma HeaderScans(body: string)
    ensures Contains("bytes=" + body, "bytes=") && FindAll("bytes=" + body) == FindAll(body)
  {
    var s := "bytes=" + body;
    assert OccursAt(s, "bytes=", 0);
    assert s == "bytes" + (['='] + body);
    PrefixSkipped("bytes", body);
  }

  lemma CompileHeader(body: string)
    ensures Compile("bytes=" + body) == ParseAll(FindAll(body))
  {
    HeaderScans(body);
  }

  lemma ParseOne(t: string)
    ensures ParseAll([t]) == match ParseToken(t) case None => None case Some(r) => Some([r])
  {
    assert [t][1..] == [];
    match ParseToken(t) {
      case None =>
      case Some(r) => assert [r] + [] == [r];
    }
  }

  /** A header with one token in it. */
  lemma OneToken(t: string)
    requires t != "" && MatchHead(t) == Some(|t|)
    ensures Compile("bytes=" + t) == match ParseToken(t) case None => None case Some(r) => Some([r])
  {
    CompileHeader(t);
    assert t + "" == t;
    TokenFound(t, "");
    assert FindAll(t) == [t] + [] == [t];
    ParseOne(t);
  }

  /** A range `a-b` is accepted exactly when it has more than one byte. */
  lemma SingleRangeIff(a: nat, b: nat)
    ensures Compile("bytes=" + PrintSpec(FromTo(a, b))) == if a < b then Some([ByteRange(a, Some(b), Some(b - a + 1))]) else None
  {
    var x := FromTo(a, b);
    TokenMatches(x, "");
    assert PrintSpec(x) + "" == PrintSpec(x);
    TokenParses(x);
    OneToken(PrintSpec(x));
  }

  lemma DashWordMatches(d: string)
    requires d != "" && Words(d, 0, |d|)
    ensures MatchHead(['-'] + d) == Some(1 + |d|)
  {
    assert (['-'] + d)[1..] == d && d + "" == d;
    WordsThen(d, "");
  }

  /** A suffix range `-n` is read as the first n + 1 bytes; `-0` is refused. */
  lemma SuffixReadsFromStart(n: nat)
    ensures Compile("bytes=" + (['-'] + Decimal(n))) == if n > 0 then Some([ByteRange(0, Some(n), Some(n + 1))]) else None
  {
    var d := Decimal(n);
    DecimalParses(n);
    TokenParts("", d);
    assert "" + (['-'] + d) == ['-'] + d;
    DashWordMatches(d);
    OneToken(['-'] + d);
  }

  // Streaming.

  /** file[start .. stop), clipped to the file. */
  function Slice(data: Bytes, start: nat, stop: int): Bytes {
    var top := if stop < |data| then stop else |data|;
    if start < top then data[start..top] else []
  }

  function Concat(chunks: seq<Bytes>): Bytes {
    if chunks == [] then [] else Concat(chunks[..|chunks| - 1]) + chunks[|chunks| - 1]
  }

  class FileLike {
    const data: Bytes
    var pos: nat

    constructor (data: Bytes)
      ensures this.data == data && pos == 0
    {
      this.data, pos := data, 0;
    }

    method Seek(offset: nat)
      modifies this
      ensures pos == offset
    {
      pos := offset;
    }

    /** At most `n` bytes from the position; all of the rest when `n` is None or negative. */
    method Read(n: Option<int>) returns (chunk: Bytes)
      modifies this
      ensures chunk == Slice(data, old(pos), if n.Some? && n.value >= 0 then old(pos) + n.value else |data|)
      ensures pos == old(pos) + |chunk|
    {
      if pos >= |data| {
        return [];
      }
      var stop := if n.Some? && 0 <= n.value && pos + n.value < |data| then pos + n.value else |data|;
      chunk := data[pos..stop];
      pos := pos + |chunk|;
    }
  }

  const CHUNK: nat := 1024 * 1024 * 20

  lemma SliceGrows(data: Bytes, a: nat, b: nat, n: nat)
    requires a <= b
    ensures var chunk := Slice(data, b, b + n);
      && Slice(data, a, b) + chunk == Slice(data, a, b + |chunk|)
      && (n > 0 && chunk == [] ==> Slice(data, a, b) == Slice(data, a, |data|))
      && (chunk != [] ==> b < |data|)
  {
  }

  lemma ConcatSnoc(chunks: seq<Bytes>, chunk: Bytes)
    ensures Concat(chunks + [chunk]) == Concat(chunks) + chunk
  {
    assert (chunks + [chunk])[..|chunks|] == chunks;
  }

  /** The chunk loop: everything from the position on. */
  method Drain(f: FileLike) returns (chunks: seq<Bytes>)
    modifies f
    ensures Concat(chunks) == Slice(f.data, old(f.pos), |f.data|)
    ensures forall i | 0 <= i < |chunks| :: chunks[i] != [] && (i < |chunks| - 1 ==> |chunks[i]| == 20971520)
  {
    chunks := [];
    ghost var start, at := f.pos, f.pos;
    var chunk := f.Read(Some(CHUNK));
    while chunk != []
      invariant start <= at && f.pos == at + |chunk| && chunk == Slice(f.data, at, at + CHUNK)
      invariant Concat(chunks) == Slice(f.data, start, at)
      invariant forall i | 0 <= i < |chunks| :: chunks[i] != [] && (|chunks[i]| == CHUNK || (i == |chunks| - 1 && at >= |f.data|))
      decreases |f.data| - at
    {
      ConcatSnoc(chunks, chunk);
      SliceGrows(f.data, start, at, CHUNK);
      chunks := chunks + [chunk];
      at := f.pos;
      chunk := f.Read(Some(CHUNK));
    }
    SliceGrows(f.data, start, at, CHUNK);
  }

  /** iterfile. */
  method IterFile(data: Bytes, range: Option<ByteRange>) returns (chunks: seq<Bytes>)
    requires range.Some? ==> range.value.start >= 0
    ensures range.None? ==> Concat(chunks) == data
    ensures range.Some? && (range.value.end == None || range.value.end == Some(0)) ==>
      Concat(chunks) == Slice(data, range.value.start, |data|)
    ensures range.Some? && range.value.end.Some? && range.value.end != Some(0) ==>
      Concat(chunks) == Slice(data, range.value.start,
        if range.value.range.Some? && range.value.range.value >= 0 then range.value.start + range.value.range.value else |data|)
  {
    var f := new FileLike(data);
    if range.Some? {
      f.Seek(range.value.start);
      if range.value.end.Some? && range.value.end.value != 0 {
        var chunk := f.Read(range.value.range);
        chunks := [chunk];
        assert chunks[..0] == [];
        return;
      }
    }
    chunks := Drain(f);
  }

  datatype Response =
    | Whole(chunks: seq<Bytes>)
    | Partial(chunks: seq<Bytes>, start: int, end: int, size: nat)
    | RangeNotSatisfiable
    | ValueError

  /** The bytes a single range asks for. */
  function Asked(data: Bytes, r: ByteRange): Bytes
    requires r.start >= 0
  {
    Slice(data, r.start, match r.end case None => |data| case Some(e) => e + 1)
  }

  lemma {:induction false} CompiledStarts(tokens: seq<string>)
    ensures ParseAll(tokens).Some? ==> forall i | 0 <= i < |ParseAll(tokens).value| ::
      var r := ParseAll(tokens).value[i];
      0 <= r.start && (r.end.None? ==> r.range.None?) && (r.end.Some? ==> r.start < r.end.value && r.range == Some(r.end.value - r.start + 1))
    decreases |tokens|
  {
    if tokens != [] { CompiledStarts(tokens[1..]); }
  }

  /** A range as the header parser leaves it. */
  predicate IsProper(range: ByteRange) {
    0 <= range.start && (range.end.Some? ==> range.start < range.end.value)
  }

  /** The answer to a single range: the bytes it asks for, and the interval printed in Content-Range. */
  predicate Serves(r: Response, data: Bytes, range: ByteRange)
    requires range.start >= 0
  {
    && r.Partial? && Concat(r.chunks) == Asked(data, range)
    && r.start == range.start && r.size == |data|
    && r.end == (if range.end.Some? && range.end.value - range.start + 1 <= |data| then range.end.value else |data|)
  }

  lemma AskedIs(data: Bytes, range: ByteRange)
    requires IsProper(range)
    ensures Asked(data, range) ==
      if range.start >= |data| then []
      else if range.end.Some? && range.end.value + 1 < |data| then data[range.start..range.end.value + 1]
      else data[range.start..]
  {
  }

  /** download_file on a file; `header` is the Range header. */
  method Download(data: Bytes, header: Option<string>) returns (r: Response)
    ensures header == None || header == Some("") ==> r.Whole? && Concat(r.chunks) == data
    ensures header.Some? && header.value != "" ==>
      match Compile(header.value)
      case None => r == ValueError
      case Some(ranges) =>
        if |ranges| != 1 then r == RangeNotSatisfiable
        else
          var range := ranges[0];
          && IsProper(range) && Serves(r, data, range)
          && Concat(r.chunks) ==
            if range.start >= |data| then []
            else if range.end.Some? && range.end.value + 1 < |data| then data[range.start..range.end.value + 1]
            else data[range.start..]
    ensures header.Some? && header.value != "" && !(exists k | 0 <= k <= |header.value| :: OccursAt(header.value, "bytes=", k)) ==> r == ValueError
  {
    if header.None? || header.value == "" {
      var chunks := IterFile(data, None);
      return Whole(chunks);
    }
    var ranges := Compile(header.value);
    if ranges.None? {
      return ValueError;
    }
    if |ranges.value| != 1 {
      return RangeNotSatisfiable;
    }
    CompiledStarts(FindAll(header.value));
    var range := ranges.value[0];
    var fsize := |data|;
    if range.range.Some? && range.range.value != 0 && range.range.value > fsize {
      range := range.(end := Some(fsize));
      range := range.(range := Some(fsize - range.start + 1));
    }
    if range.end.None? {
      range := range.(end := Some(fsize));
    }
    var chunks := IterFile(data, Some(range));
    r := Partial(chunks, range.start, range.end.value, fsize);
    AskedIs(data, ranges.value[0]);
  }

  /** The interval printed in an answer has as many positions as the answer has bytes exactly when an end
      inside the file was asked for or the start is one past the end of the file. */
  lemma ContentRangeExactIff(r: Response, data: Bytes, range: ByteRange)
    requires IsProper(range) && Serves(r, data, range)
    ensures |Concat(r.chunks)| == r.end - r.start + 1 <==>
      || (range.end.Some? && range.end.value < |data|)
      || (range.start == |data| + 1 && r.end == |data|)
  {
  }
}
