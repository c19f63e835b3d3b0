/** POSIX path strings as pathlib reads and prints them. */
module Paths {
  import opened Text

  /** The components of a path. */
  type Path = seq<string>

  predicate IsName(n: string) {
    n != "" && n != "." && '/' !in n
  }

  predicate AreNames(p: Path) {
    forall n | n in p :: IsName(n)
  }

  function Keep(parts: seq<string>): Path {
    if parts == [] then []
    else (if parts[0] == "" || parts[0] == "." then [] else [parts[0]]) + Keep(parts[1..])
  }

  /** The parts pathlib keeps of a string, leaving aside whether it is absolute. */
  function Components(s: string): Path {
    Keep(Split(s, '/'))
  }

  /** The string of an absolute path. */
  function Absolute(p: Path): string {
    if p == [] then "" else ['/'] + (p[0] + Absolute(p[1..]))
  }

  /** The last part of a path, "" when there is none. */
  function Name(s: string): string {
    var c := Components(s);
    if c == [] then "" else c[|c| - 1]
  }

  /** `s.split("/")[-1]`. */
  function LastSegment(s: string): string {
    var parts := Split(s, '/');
    parts[|parts| - 1]
  }

  /** str.lstrip("./"). */
  function StripDots(s: string): string {
    if s != "" && (s[0] == '.' || s[0] == '/') then StripDots(s[1..]) else s
  }

  lemma {:induction false} KeepNames(p: Path)
    requires AreNames(p)
    ensures Keep(p) == p
  {
    if p != [] {
      assert IsName(p[0]);
      KeepNames(p[1..]);
    }
  }

  lemma {:induction false} KeepsNames(parts: seq<string>)
    requires forall n | n in parts :: '/' !in n
    ensures AreNames(Keep(parts))
  {
    if parts != [] { KeepsNames(parts[1..]); }
  }

  lemma {:induction false} SplitHasNone(s: string, c: char)
    ensures forall n | n in Split(s, c) :: c !in n
    decreases |s|
  {
    var i := Find(s, c);
    if i < |s| { SplitHasNone(s[i + 1..], c); }
  }

  lemma ComponentsAreNames(s: string)
    ensures AreNames(Components(s))
  {
    SplitHasNone(s, '/');
    KeepsNames(Split(s, '/'));
  }

  lemma SplitAbsoluteStep(n: string, p: Path)
    requires '/' !in n && p != [] && Split(p[0] + Absolute(p[1..]), '/') == p
    ensures Split(n + Absolute(p), '/') == [n] + p
  {
    SplitNext(n, '/', p[0] + Absolute(p[1..]));
  }

  lemma {:induction false} SplitAbsolute(n: string, p: Path)
    requires '/' !in n && AreNames(p)
    ensures Split(n + Absolute(p), '/') == [n] + p
    decreases |p|
  {
    if p == [] {
      assert n + Absolute(p) == n;
      SplitOne(n, '/');
    } else {
      assert p[0] in p && IsName(p[0]);
      SplitAbsolute(p[0], p[1..]);
      assert p == [p[0]] + p[1..];
      SplitAbsoluteStep(n, p);
    }
  }

  /** Printing puts a slash before each name. */
  lemma {:induction false} AbsoluteIs(p: Path, n: string)
    ensures Absolute([]) == "" && Absolute(p + [n]) == Absolute(p) + "/" + n
    decreases |p|
  {
    if p == [] {
      assert [] + [n] == [n] && [n][1..] == [] && ['/'] + (n + "") == "" + "/" + n;
    } else {
      assert (p + [n])[1..] == p[1..] + [n];
      AbsoluteIs(p[1..], n);
      assert ['/'] + (p[0] + (Absolute(p[1..]) + "/" + n)) == ['/'] + (p[0] + Absolute(p[1..])) + "/" + n;
    }
  }

  /** The last segment: all of a string that has no slash, or what follows the last one. */
  lemma {:induction false} LastSegmentIs(s: string)
    ensures '/' !in LastSegment(s)
    ensures s == LastSegment(s) || exists front :: s == front + "/" + LastSegment(s)
    decreases |s|
  {
    SplitHasNone(s, '/');
    var i := Find(s, '/');
    if i < |s| {
      var rest := s[i + 1..];
      LastSegmentIs(rest);
      assert Split(s, '/')[1..] == Split(rest, '/');
      assert LastSegment(s) == LastSegment(rest);
      assert s == s[..i] + "/" + rest;
      if rest != LastSegment(s) {
        var front :| rest == front + "/" + LastSegment(s);
        assert s == (s[..i] + "/" + front) + "/" + LastSegment(s);
      }
    } else {
      assert s[..|s|] == s;
    }
  }

  lemma {:induction false} KeepLast(parts: seq<string>)
    requires parts != [] && parts[|parts| - 1] != "" && parts[|parts| - 1] != "."
    ensures Keep(parts) != [] && Keep(parts)[|Keep(parts)| - 1] == parts[|parts| - 1]
    decreases |parts|
  {
    if |parts| > 1 { KeepLast(parts[1..]); }
  }

  /** The name of a file's path is its last segment. */
  lemma NameIsLast(h: string)
    requires LastSegment(h) != "" && LastSegment(h) != "."
    ensures Components(h) != [] && Name(h) == LastSegment(h) && '/' !in Name(h)
  {
    KeepLast(Split(h, '/'));
    SplitHasNone(h, '/');
  }

  /** Printing an absolute path and reading it back gives the path. */
  lemma ComponentsOfAbsolute(p: Path)
    requires forall n | n in p :: n != "" && n != "." && '/' !in n
    ensures Components(Absolute(p)) == p
  {
    SplitAbsolute("", p);
    assert "" + Absolute(p) == Absolute(p);
    KeepNames(p);
    assert ([""] + p)[1..] == p;
  }

  // A leading slash or dot of a path.

  lemma SlashFirst(s: string)
    ensures Components(['/'] + s) == Components(s)
  {
    SplitNext("", '/', s);
    assert "" + (['/'] + s) == ['/'] + s;
    assert ([""] + Split(s, '/'))[1..] == Split(s, '/');
  }

  lemma DotSegmentFirst(s: string)
    requires s == "" || s[0] == '/'
    ensures Components(['.'] + s) == Components(s)
  {
    if s == "" {
      assert ['.'] + s == ".";
      SplitOne(".", '/');
      SplitOne("", '/');
    } else {
      var x := s[1..];
      assert s == ['/'] + x && ['.'] + s == "." + (['/'] + x);
      SplitNext(".", '/', x);
      assert (["."] + Split(x, '/'))[1..] == Split(x, '/');
      SlashFirst(x);
    }
  }

  /** What follows the first slash, split. */
  function Tail(s: string): seq<string> {
    var i := Find(s, '/');
    if i == |s| then [] else Split(s[i + 1..], '/')
  }

  lemma SplitHead(s: string)
    ensures Split(s, '/') == [s[..Find(s, '/')]] + Tail(s)
  {
    if Find(s, '/') == |s| { assert s[..|s|] == s; }
  }

  lemma KeepHead(n: string, tail: seq<string>)
    ensures Keep([n] + tail) == (if n == "" || n == "." then [] else [n]) + Keep(tail)
  {
    assert ([n] + tail)[1..] == tail;
  }

  lemma DotBeforeHead(s: string)
    requires s != "" && s[0] != '/'
    ensures var n := s[..Find(s, '/')];
      n != "" && Split(['.'] + s, '/') == [['.'] + n] + Tail(s)
  {
    var i := Find(s, '/');
    var n, d := s[..i], ['.'] + s;
    assert d == (['.'] + n) + s[i..];
    FindIs(['.'] + n, '/', s[i..]);
    SplitHead(d);
    assert d[..i + 1] == ['.'] + n;
    assert i < |s| ==> d[i + 2..] == s[i + 1..];
  }

  lemma DotOfNameFirst(s: string) returns (n: string, rest: Path)
    requires s != "" && s[0] != '/'
    ensures n != "" && Components(['.'] + s) == [['.'] + n] + rest
    ensures Components(s) == (if n == "." then [] else [n]) + rest
  {
    n, rest := s[..Find(s, '/')], Keep(Tail(s));
    DotBeforeHead(s);
    SplitHead(s);
    KeepHead(n, Tail(s));
    KeepHead(['.'] + n, Tail(s));
  }

  function Weight(p: Path): nat {
    if p == [] then 0 else |p[0]| + Weight(p[1..])
  }

  lemma WeightOf(head: Path, rest: Path)
    requires |head| <= 1
    ensures Weight(head + rest) == (if head == [] then 0 else |head[0]|) + Weight(rest)
  {
    if head != [] { assert (head + rest)[1..] == rest; } else { assert head + rest == rest; }
  }

  lemma DotMakesHeavier(s: string)
    requires s != "" && s[0] != '/'
    ensures Weight(Components(s)) < Weight(Components(['.'] + s))
    ensures Components(['.'] + s) != [] && Components(['.'] + s)[0] != "" && Components(['.'] + s)[0][0] == '.'
  {
    var n, rest := DotOfNameFirst(s);
    WeightOf([['.'] + n], rest);
    WeightOf(if n == "." then [] else [n], rest);
  }

  lemma {:induction false} StrippedIsLighter(s: string)
    ensures Weight(Components(StripDots(s))) <= Weight(Components(s))
    decreases |s|
  {
    if s != "" && (s[0] == '.' || s[0] == '/') {
      StrippedIsLighter(s[1..]);
      assert s == [s[0]] + s[1..];
      if s[0] == '/' { SlashFirst(s[1..]); }
      else if s[1..] == "" || s[1] == '/' { DotSegmentFirst(s[1..]); }
      else { DotMakesHeavier(s[1..]); }
    }
  }

  lemma FirstComponent(s: string)
    requires s != "" && s[0] != '/' && s[0] != '.'
    ensures Components(s) != [] && Components(s)[0] != "" && Components(s)[0][0] == s[0]
  {
    SplitHead(s);
    KeepHead(s[..Find(s, '/')], Tail(s));
  }

  /** The first component starts with a dot. */
  predicate DotFirst(p: Path) {
    p != [] && p[0] != "" && p[0][0] == '.'
  }

  /** Stripping leading dots and slashes keeps what a relative path names exactly when its first
      component does not start with a dot. */
  lemma {:induction false} StripKeepsIff(s: string)
    ensures Components(StripDots(s)) == Components(s) <==> !DotFirst(Components(s))
    decreases |s|
  {
    if s == "" {
      SplitOne("", '/');
    } else if s[0] == '.' || s[0] == '/' {
      StripKeepsIff(s[1..]);
      assert s == [s[0]] + s[1..];
      if s[0] == '/' { SlashFirst(s[1..]); }
      else if s[1..] == "" || s[1] == '/' { DotSegmentFirst(s[1..]); }
      else {
        DotMakesHeavier(s[1..]);
        StrippedIsLighter(s[1..]);
      }
    } else {
      FirstComponent(s);
    }
  }

  /** Of a path that first climbs one directory, stripping keeps the rest exactly when the rest does not
      start with a dot. */
  lemma {:induction false} StripClimbIff(s: string, c: Path)
    requires Components(s) == [".."] + c
    ensures Components(StripDots(s)) == c <==> !DotFirst(c)
    decreases |s|
  {
    if s == "" {
      SplitOne("", '/');
    } else if s[0] == '.' || s[0] == '/' {
      assert s == [s[0]] + s[1..];
      if s[0] == '/' {
        SlashFirst(s[1..]);
        StripClimbIff(s[1..], c);
      } else if s[1..] == "" || s[1] == '/' {
        DotSegmentFirst(s[1..]);
        StripClimbIff(s[1..], c);
      } else {
        var n, rest := DotOfNameFirst(s[1..]);
        assert ([".."] + c)[0] == ['.'] + n && ([".."] + c)[1..] == c && ([['.'] + n] + rest)[1..] == rest;
        assert (['.'] + n)[1] == '.' && |n| == 1;
        StripKeepsIff(s[1..]);
      }
    } else {
      FirstComponent(s);
    }
  }
}
