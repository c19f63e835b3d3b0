/** CWL input schemas: the parser of the API and the parser of the executor, which are kept in sync
    by hand, and the executor's filling of inputs against the form the API shows. */
module Cwl {
  import opened Options
  import opened Json
  import opened Text

  predicate EndsWith(s: string, c: char) {
    s != "" && s[|s| - 1] == c
  }

  /** What both parsers record for an input. */
  datatype Flags = Flags(default: Json, hasDefault: bool, optional: bool, required: bool)

  datatype ExecInput = ExecInput(kind: Json, flags: Flags)

  datatype ApiInput = ApiInput(kind: Json, symbols: Option<seq<Json>>, doc: Json, flags: Flags)

  /** _input_is_optional. */
  predicate IsOptional(kind: Json) {
    match kind
    case Str(s) => EndsWith(s, '?')
    case List(items) => Str("null") in items
    case _ => false
  }

  function FlagsOf(kind: Json, hasDefault: bool, default: Json): Flags {
    var optional := IsOptional(kind) || hasDefault;
    Flags(default, hasDefault, optional, !optional)
  }

  /** One input as the executor parses it. */
  function ParseExec(spec: Json): ExecInput {
    match spec
    case Dict(f) =>
      var kind := Lookup(f, "type");
      ExecInput(kind, FlagsOf(kind, Has(f, "default"), Lookup(f, "default")))
    case _ => ExecInput(spec, FlagsOf(spec, false, Null))
  }

  /** The type the API takes an input specification to have. */
  function ApiKind(spec: Json): Json {
    match spec
    case Dict(f) =>
      if Lookup(f, "type") == Str("enum") && Has(f, "symbols") then spec
      else if Has(f, "type") then Lookup(f, "type")
      else spec
    case _ => spec
  }

  /** One input as the API parses it. */
  function ParseApi(spec: Json): ApiInput {
    var kind := ApiKind(spec);
    match spec
    case Dict(f) => ApiInput(TypeName(kind), Symbols(kind), Lookup(f, "doc"), FlagsOf(kind, Has(f, "default"), Lookup(f, "default")))
    case _ => ApiInput(TypeName(kind), Symbols(kind), Null, FlagsOf(kind, false, Null))
  }

  function Size(j: Json): nat
  {
    match j
    case List(items) => 1 + SizeAll(items)
    case Dict(f) => 1 + SizeFields(f)
    case _ => 1
  }

  function SizeAll(items: seq<Json>): nat {
    if items == [] then 0 else Size(items[0]) + SizeAll(items[1..])
  }

  function SizeFields(f: Fields<Json>): nat {
    if f == [] then 0
    else
      var first := f[0];
      assert first in f && first.1 < first;
      Size(first.1) + SizeFields(f[1..])
  }

  lemma {:induction false} FieldIsSmaller(f: Fields<Json>, key: string)
    ensures Size(Lookup(f, key)) <= if Has(f, key) then SizeFields(f) else 1
    decreases |f|
  {
    if f != [] && f[0].0 != key {
      FieldIsSmaller(f[1..], key);
      assert Lookup(f, key) == Lookup(f[1..], key);
    }
  }

  lemma {:induction false} ItemIsSmaller(items: seq<Json>, i: nat)
    requires i < |items|
    ensures Size(items[i]) <= SizeAll(items)
    decreases |items|
  {
    if i > 0 { ItemIsSmaller(items[1..], i - 1); }
  }

  function NonNull(items: seq<Json>): seq<Json> {
    if items == [] then [] else (if items[0] == Str("null") then [] else [items[0]]) + NonNull(items[1..])
  }

  lemma {:induction false} NonNullSmaller(items: seq<Json>)
    ensures SizeAll(NonNull(items)) <= SizeAll(items)
  {
    if items != [] {
      NonNullSmaller(items[1..]);
      if items[0] != Str("null") { assert NonNull(items)[1..] == NonNull(items[1..]); } else { assert NonNull(items) == NonNull(items[1..]); }
    }
  }

  /** _extract_enum_symbols. */
  function Symbols(kind: Json): Option<seq<Json>>
    decreases Size(kind), 1, 0
  {
    match kind
    case List(items) => FirstSymbols(items)
    case _ => MemberSymbols(kind)
  }

  function FirstSymbols(items: seq<Json>): Option<seq<Json>>
    decreases SizeAll(items) + 1, 0, |items|
  {
    if items == [] then None
    else
      match MemberSymbols(items[0])
      case Some(s) => Some(s)
      case None => FirstSymbols(items[1..])
  }

  /** One member of a union, or the type itself. */
  function MemberSymbols(member: Json): Option<seq<Json>>
    decreases Size(member), 0, 0
  {
    match member
    case Dict(f) =>
      if Lookup(f, "type") == Str("enum") && Lookup(f, "symbols").List? then Some(Lookup(f, "symbols").items)
      else
        var inner := Lookup(f, "type");
        if inner.Dict? || inner.List? then
          FieldIsSmaller(f, "type");
          Symbols(inner)
        else None
    case _ => None
  }

  /** str.rstrip('?'). */
  function Bare(s: string): string {
    if EndsWith(s, '?') then Bare(s[..|s| - 1]) else s
  }

  /** _type_name. */
  function TypeName(kind: Json): Json
    decreases Size(kind)
  {
    match kind
    case List(items) =>
      var rest := NonNull(items);
      NonNullSmaller(items);
      if |rest| == 1 then
        ItemIsSmaller(rest, 0);
        TypeName(rest[0])
      else Str(if rest != [] then "union" else "null")
    case Dict(f) =>
      var inner := Lookup(f, "type");
      if inner == Str("enum") then Str("enum")
      else if inner.Dict? || inner.List? then
        FieldIsSmaller(f, "type");
        TypeName(inner)
      else inner
    case Str(s) => Str(Bare(s))
    case _ => Null
  }

  /** Every union met on the way from a type to its name has one member besides null. */
  predicate NoRealUnion(kind: Json)
    decreases Size(kind)
  {
    match kind
    case List(items) =>
      var rest := NonNull(items);
      NonNullSmaller(items);
      |rest| == 1 && (ItemIsSmaller(rest, 0); NoRealUnion(rest[0]))
    case Dict(f) =>
      var inner := Lookup(f, "type");
      inner != Str("enum") && (inner.Dict? || inner.List?) ==> (FieldIsSmaller(f, "type"); NoRealUnion(inner))
    case _ => true
  }

  lemma {:induction false} FirstOfNonNull(items: seq<Json>)
    requires |NonNull(items)| == 1
    ensures FirstSymbols(items) == MemberSymbols(NonNull(items)[0])
  {
    if items[0] == Str("null") {
      assert NonNull(items) == NonNull(items[1..]);
      FirstOfNonNull(items[1..]);
    } else {
      assert NonNull(items) == [items[0]] + NonNull(items[1..]);
      NoNonNull(items[1..]);
    }
  }

  lemma {:induction false} NoNonNull(items: seq<Json>)
    requires NonNull(items) == []
    ensures FirstSymbols(items) == None
  {
    if items != [] { NoNonNull(items[1..]); }
  }

  /** An input with enum symbols is displayed as an enum exactly when no real union is in the way. */
  lemma {:induction false} EnumNameIff(kind: Json)
    requires Symbols(kind).Some?
    ensures TypeName(kind) == Str("enum") <==> NoRealUnion(kind)
    decreases Size(kind)
  {
    match kind {
      case List(items) =>
        var rest := NonNull(items);
        NonNullSmaller(items);
        if |rest| == 1 {
          ItemIsSmaller(rest, 0);
          FirstOfNonNull(items);
          EnumNameIff(rest[0]);
        }
      case Dict(f) =>
        var inner := Lookup(f, "type");
        if inner != Str("enum") {
          FieldIsSmaller(f, "type");
          EnumNameIff(inner);
        }
      case _ =>
    }
  }

  lemma {:induction false} BareIs(s: string)
    ensures Bare(s) <= s && (forall i | |Bare(s)| <= i < |s| :: s[i] == '?') && (Bare(s) != "" ==> Bare(s)[|Bare(s)| - 1] != '?')
  {
    if EndsWith(s, '?') { BareIs(s[..|s| - 1]); }
  }

  /** Members `i` of a union and those besides null. */
  lemma {:induction false} NonNullAre(items: seq<Json>)
    ensures NonNull(items) == [] <==> forall i | 0 <= i < |items| :: items[i] == Str("null")
    ensures forall i | 0 <= i < |items| && items[i] != Str("null") && (forall k | 0 <= k < |items| && k != i :: items[k] == Str("null")) ::
      NonNull(items) == [items[i]]
    ensures forall i, k | 0 <= i < k < |items| && items[i] != Str("null") && items[k] != Str("null") :: |NonNull(items)| > 1
  {
    if items != [] {
      var rest := items[1..];
      NonNullAre(rest);
      assert forall i | 0 < i < |items| :: items[i] == rest[i - 1];
      if items[0] == Str("null") {
        assert NonNull(items) == NonNull(rest);
        forall i | 0 <= i < |items| && items[i] != Str("null") && (forall k | 0 <= k < |items| && k != i :: items[k] == Str("null"))
          ensures NonNull(items) == [items[i]]
        {
          assert forall k | 0 <= k < |rest| && k != i - 1 :: rest[k] == items[k + 1];
          assert rest[i - 1] == items[i];
        }
      } else {
        assert NonNull(items) == [items[0]] + NonNull(rest);
      }
    }
  }

  /** The name a type is shown by: what a record or a union with one member besides null wraps, an enum, a
      union, a null, or the name written without its question marks. */
  lemma TypeNameIs(kind: Json)
    ensures match kind
      case Str(s) => TypeName(kind).Str? && var b := TypeName(kind).s;
        b <= s && (forall i | |b| <= i < |s| :: s[i] == '?') && (b != "" ==> b[|b| - 1] != '?')
      case List(items) =>
        && ((forall i | 0 <= i < |items| :: items[i] == Str("null")) ==> TypeName(kind) == Str("null"))
        && (forall i, k | 0 <= i < k < |items| && items[i] != Str("null") && items[k] != Str("null") :: TypeName(kind) == Str("union"))
        && (forall i | 0 <= i < |items| && items[i] != Str("null") && (forall k | 0 <= k < |items| && k != i :: items[k] == Str("null")) ::
             TypeName(kind) == TypeName(items[i]))
      case Dict(f) =>
        var inner := Lookup(f, "type"); TypeName(kind) == if inner.Dict? || inner.List? then TypeName(inner) else inner
      case _ => TypeName(kind) == Null
  {
    match kind {
      case Str(s) => BareIs(s);
      case List(items) => NonNullAre(items);
      case _ =>
    }
  }

  lemma {:induction false} FirstSymbolsAre(items: seq<Json>, i: nat)
    ensures i < |items| && MemberSymbols(items[i]).Some? && (forall k | 0 <= k < i :: MemberSymbols(items[k]) == None) ==>
      FirstSymbols(items) == MemberSymbols(items[i])
    ensures (forall k | 0 <= k < |items| :: MemberSymbols(items[k]) == None) ==> FirstSymbols(items) == None
    decreases |items|
  {
    if items != [] {
      assert forall k | 0 < k < |items| :: items[k] == items[1..][k - 1];
      FirstSymbolsAre(items[1..], if i > 0 then i - 1 else 0);
    }
  }

  /** The symbols of a type: those of an enum record, of what a record wraps, or of the first record of a union
      that has any. */
  lemma SymbolsAre(kind: Json, i: nat)
    ensures match kind
      case Dict(f) =>
        Symbols(kind) ==
          if Lookup(f, "type") == Str("enum") && Lookup(f, "symbols").List? then Some(Lookup(f, "symbols").items)
          else if Lookup(f, "type").Dict? || Lookup(f, "type").List? then Symbols(Lookup(f, "type"))
          else None
      case List(items) =>
        && (i < |items| && items[i].Dict? && Symbols(items[i]).Some? && (forall k | 0 <= k < i && items[k].Dict? :: Symbols(items[k]) == None) ==>
             Symbols(kind) == Symbols(items[i]))
        && ((forall k | 0 <= k < |items| && items[k].Dict? :: Symbols(items[k]) == None) ==> Symbols(kind) == None)
      case _ => Symbols(kind) == None
  {
    if kind.List? {
      forall m: Json ensures MemberSymbols(m) == if m.Dict? then Symbols(m) else None { }
      FirstSymbolsAre(kind.items, i);
    }
  }

  // Choosing the process to describe, and the one to run.

  /** str.lstrip('#'). */
  function Unhashed(s: string): string {
    if s != "" && s[0] == '#' then Unhashed(s[1..]) else s
  }

  /** An id that prints as `main` or `#main`; only a string can. */
  predicate IsMain(entry: Fields<Json>) {
    match Lookup(entry, "id")
    case Str(s) => Unhashed(s) == "main"
    case _ => false
  }

  predicate IsProcess(entry: Fields<Json>) {
    Lookup(entry, "class") in [Str("CommandLineTool"), Str("Workflow"), Str("ExpressionTool")]
  }

  /** The dictionaries among the entries of a $graph; iterating a number or True is an error, iterating
      a string or a dictionary gives strings. */
  function Entries(graph: Json): Option<seq<Fields<Json>>> {
    match graph
    case Num(n) => if n == 0.0 then Some([]) else None
    case Bool(b) => if b then None else Some([])
    case List(items) => Some(Dicts(items))
    case _ => Some([])
  }

  function Dicts(items: seq<Json>): seq<Fields<Json>> {
    if items == [] then [] else (if items[0].Dict? then [items[0].fields] else []) + Dicts(items[1..])
  }

  /** `e` is the first entry with the property. */
  ghost predicate FirstWith<T>(entries: seq<T>, p: T -> bool, e: T) {
    exists i :: 0 <= i < |entries| && entries[i] == e && p(e) && forall k | 0 <= k < i :: !p(entries[k])
  }

  ghost predicate NoneWith<T>(entries: seq<T>, p: T -> bool) {
    forall i | 0 <= i < |entries| :: !p(entries[i])
  }

  /** What a $graph package is described by: the first main, or else the first process, or else the first entry. */
  ghost predicate Describes(entries: seq<Fields<Json>>, e: Fields<Json>) {
    || FirstWith(entries, IsMain, e)
    || (NoneWith(entries, IsMain) && FirstWith(entries, IsProcess, e))
    || (NoneWith(entries, IsMain) && NoneWith(entries, IsProcess) && e == if entries == [] then [] else entries[0])
  }

  /** What a document is described by; None when reading it raises. */
  ghost predicate Chosen(doc: Json, r: Option<Fields<Json>>) {
    if !doc.Dict? then r == Some([])
    else if !Has(doc.fields, "$graph") then r == Some(doc.fields)
    else
      match Entries(Lookup(doc.fields, "$graph"))
      case None => r == None
      case Some(entries) => r.Some? && Describes(entries, r.value)
  }

  /** _load_cwl_doc and load_cwl_doc, after the YAML is read. */
  method LoadCwlDoc(doc: Json) returns (r: Option<Fields<Json>>)
    ensures Chosen(doc, r)
  {
    if !doc.Dict? { return Some([]); }
    if !Has(doc.fields, "$graph") { return Some(doc.fields); }
    var graph := Entries(Lookup(doc.fields, "$graph"));
    if graph == None { return None; }
    var entries := graph.value;
    var k := 0;
    while k < |entries|
      invariant 0 <= k <= |entries|
      invariant forall i | 0 <= i < k :: !IsMain(entries[i])
    {
      if IsMain(entries[k]) { return Some(entries[k]); }
      k := k + 1;
    }
    k := 0;
    while k < |entries|
      invariant 0 <= k <= |entries|
      invariant forall i | 0 <= i < k :: !IsProcess(entries[i])
    {
      if IsProcess(entries[k]) { return Some(entries[k]); }
      k := k + 1;
    }
    return Some(if entries == [] then [] else entries[0]);
  }

  /** An entry of a package with the id main, after any number of `#`. */
  predicate LooksMain(e: Json) {
    e.Dict? && Lookup(e.fields, "id").Str? && var s := Lookup(e.fields, "id").s;
      |s| >= 4 && s[|s| - 4..] == "main" && forall i | 0 <= i < |s| - 4 :: s[i] == '#'
  }

  predicate LooksProcess(e: Json) {
    e.Dict? && (Lookup(e.fields, "class") == Str("CommandLineTool") || Lookup(e.fields, "class") == Str("Workflow")
                || Lookup(e.fields, "class") == Str("ExpressionTool"))
  }

  lemma {:induction false} UnhashedIs(s: string)
    ensures Unhashed(s) == "main" <==> |s| >= 4 && s[|s| - 4..] == "main" && forall i | 0 <= i < |s| - 4 :: s[i] == '#'
    decreases |s|
  {
    if s != "" && s[0] == '#' {
      UnhashedIs(s[1..]);
      assert |s| > 4 ==> s[1..][|s| - 5..] == s[|s| - 4..] && forall i | 0 < i < |s| - 4 :: s[i] == s[1..][i - 1];
      assert |s| == 4 ==> s[|s| - 4..][0] == '#';
    } else if |s| == 4 {
      assert s[0..] == s;
    }
  }

  lemma {:induction false} DictsAre(items: seq<Json>, p: Fields<Json> -> bool, q: Json -> bool, d: Fields<Json>)
    requires forall e | e in items :: q(e) <==> e.Dict? && p(e.fields)
    ensures FirstWith(Dicts(items), p, d) <==> FirstWith(items, q, Dict(d))
    ensures NoneWith(Dicts(items), p) <==> NoneWith(items, q)
  {
    if items != [] {
      var rest := items[1..];
      DictsAre(rest, p, q, d);
      FirstAfter(items, q, Dict(d));
      if items[0].Dict? {
        assert Dicts(items)[1..] == Dicts(rest);
        FirstAfter(Dicts(items), p, d);
      } else {
        assert [] + Dicts(rest) == Dicts(rest);
      }
    }
  }

  lemma FirstAfter<T>(s: seq<T>, p: T -> bool, e: T)
    requires s != []
    ensures FirstWith(s, p, e) <==> if p(s[0]) then s[0] == e else FirstWith(s[1..], p, e)
    ensures NoneWith(s, p) <==> !p(s[0]) && NoneWith(s[1..], p)
  {
    var rest := s[1..];
    assert forall i | 0 < i < |s| :: s[i] == rest[i - 1];
    if !p(s[0]) {
      if i :| 0 <= i < |s| && s[i] == e && p(s[i]) && forall k | 0 <= k < i :: !p(s[k]) {
        assert rest[i - 1] == e && forall k | 0 <= k < i - 1 :: !p(rest[k]);
      }
      if i :| 0 <= i < |rest| && rest[i] == e && p(rest[i]) && forall k | 0 <= k < i :: !p(rest[k]) {
        assert s[i + 1] == e;
      }
    }
  }

  lemma {:induction false} FirstDict(items: seq<Json>)
    ensures Dicts(items) == [] <==> NoneWith(items, (e: Json) => e.Dict?)
    ensures Dicts(items) != [] ==> FirstWith(items, (e: Json) => e.Dict?, Dict(Dicts(items)[0]))
  {
    if items != [] {
      FirstDict(items[1..]);
      if Dicts(items) != [] { FirstAfter(items, (e: Json) => e.Dict?, Dict(Dicts(items)[0])); }
      if !items[0].Dict? { assert [] + Dicts(items[1..]) == Dicts(items[1..]); }
      FirstAfter(items, (e: Json) => e.Dict?, Null);
    }
  }

  /** What a package is described by, entry by entry: the first main, else the first process, else the
      first dictionary, else nothing. */
  lemma PackageIs(doc: Json, items: seq<Json>, d: Fields<Json>)
    requires doc.Dict? && Get(doc.fields, "$graph") == Some(List(items)) && Chosen(doc, Some(d))
    ensures
      || FirstWith(items, LooksMain, Dict(d))
      || (NoneWith(items, LooksMain) && FirstWith(items, LooksProcess, Dict(d)))
      || (NoneWith(items, LooksMain) && NoneWith(items, LooksProcess) && FirstWith(items, (e: Json) => e.Dict?, Dict(d)))
      || (NoneWith(items, (e: Json) => e.Dict?) && d == [])
  {
    forall e: Json | e in items ensures LooksMain(e) <==> e.Dict? && IsMain(e.fields) {
      if e.Dict? && Lookup(e.fields, "id").Str? { UnhashedIs(Lookup(e.fields, "id").s); }
    }
    DictsAre(items, IsMain, LooksMain, d);
    DictsAre(items, IsProcess, LooksProcess, d);
    FirstDict(items);
  }

  /** _is_graph_cwl: the text is looked at before it is parsed. */
  predicate IsGraphCwl(text: string, doc: Json) {
    Contains(text, "$graph") && doc.Dict? && Has(doc.fields, "$graph")
  }

  /** _resolve_cwl_arg: the fragment the argument for Calrissian gets. */
  function Fragment(text: string, doc: Json): string {
    if IsGraphCwl(text, doc) then "#main" else ""
  }

  predicate NamesMain(entry: Fields<Json>) {
    Lookup(entry, "id") == Str("main") || Lookup(entry, "id") == Str("#main")
  }

  /** What the argument addresses: the document itself, or an entry of its package with the id in the
      fragment. */
  ghost predicate Addresses(fragment: string, doc: Json, e: Fields<Json>) {
    if fragment == "" then doc == Dict(e)
    else
      && doc.Dict? && Entries(Lookup(doc.fields, "$graph")).Some? && e in Entries(Lookup(doc.fields, "$graph")).value
      && Lookup(e, "id").Str? && (Lookup(e, "id").s == fragment || "#" + Lookup(e, "id").s == fragment)
  }

  lemma HashMain(id: string)
    ensures "#" + id == "#main" <==> id == "main"
  {
    assert ("#" + id)[1..] == id && "#main"[1..] == "main";
  }

  lemma {:induction false} DictsAreItems(items: seq<Json>, e: Fields<Json>)
    requires e in Dicts(items)
    ensures Dict(e) in items
    decreases |items|
  {
    if !(items[0].Dict? && items[0].fields == e) { DictsAreItems(items[1..], e); }
  }

  /** No entry of a package is the package. */
  lemma EntryIsNotDocument(doc: Fields<Json>, e: Fields<Json>)
    requires Lookup(doc, "$graph").List? && e in Dicts(Lookup(doc, "$graph").items)
    ensures e != doc
  {
    var items := Lookup(doc, "$graph").items;
    DictsAreItems(items, e);
    var i :| 0 <= i < |items| && items[i] == Dict(e);
    ItemIsSmaller(items, i);
    FieldIsSmaller(doc, "$graph");
    assert Size(Dict(e)) < Size(Dict(doc));
  }

  lemma DescribedEntry(doc: Json, d: Fields<Json>)
    requires doc.Dict? && Has(doc.fields, "$graph") && Chosen(doc, Some(d))
    ensures var entries := Entries(Lookup(doc.fields, "$graph")).value;
      if d in entries then d != doc.fields else d == [] && entries == []
  {
    var graph := Lookup(doc.fields, "$graph");
    var entries := Entries(graph).value;
    if d in entries { EntryIsNotDocument(doc.fields, d); }
  }

  /** The process that is described is the one Calrissian is told to run exactly when the document is
      no package or, for a package, its text spells the key out and the first entry that looks like main
      is named main; the fallbacks describe what never runs. */
  lemma DescribedIsAddressedIff(text: string, doc: Json, d: Fields<Json>)
    requires doc.Dict? && Chosen(doc, Some(d))
    ensures Addresses(Fragment(text, doc), doc, d) <==>
      (Has(doc.fields, "$graph") ==>
        && Contains(text, "$graph") && FirstWith(Entries(Lookup(doc.fields, "$graph")).value, IsMain, d)
        && (Lookup(d, "id") == Str("main") || Lookup(d, "id") == Str("#main")))
  {
    if Has(doc.fields, "$graph") {
      DescribedEntry(doc, d);
      if Lookup(d, "id").Str? { HashMain(Lookup(d, "id").s); }
      if NamesMain(d) { MainIsMain(d); }
    }
  }

  lemma MainIsMain(entry: Fields<Json>)
    requires NamesMain(entry)
    ensures IsMain(entry)
  {
    assert Unhashed("main") == "main";
    assert "#main"[1..] == "main" && Unhashed("#main") == Unhashed("#main"[1..]);
  }

  // Parsing an inputs block.

  /** The (name, specification) pairs of an inputs block, in either form. */
  function Items(block: Json): seq<(Json, Json)> {
    match block
    case Dict(f) => seq(|f|, i requires 0 <= i < |f| => (Str(f[i].0), f[i].1))
    case List(items) => ListItems(items)
    case _ => []
  }

  function ListItems(items: seq<Json>): seq<(Json, Json)> {
    if items == [] then []
    else (if items[0].Dict? then [(Lookup(items[0].fields, "id"), items[0])] else []) + ListItems(items[1..])
  }

  /** `not name`. */
  predicate Falsy(name: Json) {
    name == Null || name == Str("") || name == Num(0.0) || name == Bool(false) || name == List([]) || name == Dict([])
  }

  /** A list or dictionary cannot be a dictionary key. */
  predicate Unhashable(name: Json) {
    name.List? || name.Dict?
  }

  /** The result dictionary after the given pairs; None when a name cannot be a key. */
  function Collect<S>(items: seq<(Json, Json)>, parse: Json -> S): Option<Table<Json, S>> {
    if items == [] then Some([])
    else
      var (name, spec) := items[|items| - 1];
      match Collect(items[..|items| - 1], parse)
      case None => None
      case Some(d) => if Falsy(name) then Some(d) else if Unhashable(name) then None else Some(Put(d, name, parse(spec)))
  }

  /** _parse_cwl_inputs. */
  function ExecInputs(doc: Fields<Json>): Option<Table<Json, ExecInput>> {
    Collect(Items(Lookup(doc, "inputs")), ParseExec)
  }

  /** parse_cwl_inputs. */
  function ApiInputs(doc: Fields<Json>): Option<Table<Json, ApiInput>> {
    Collect(Items(Lookup(doc, "inputs")), ParseApi)
  }

  /** Pair `i` names an input, and no later pair names the same. */
  predicate LastItem(items: seq<(Json, Json)>, i: nat, name: Json) {
    i < |items| && items[i].0 == name && !Falsy(name) && forall k | i < k < |items| :: items[k].0 != name
  }

  /** The first pair with a name, or the number of pairs. */
  function FirstItem(items: seq<(Json, Json)>, name: Json): (i: nat)
    ensures i <= |items| && (i < |items| ==> items[i].0 == name) && forall k | 0 <= k < i :: items[k].0 != name
  {
    if items == [] || items[0].0 == name then 0
    else
      var i := FirstItem(items[1..], name);
      assert forall k | 0 < k < i + 1 :: items[k] == items[1..][k - 1];
      i + 1
  }

  /** The table has each name that is not falsy, with what its last pair parses to, in the order the
      names first occur in. */
  ghost predicate Collected<S>(d: Table<Json, S>, items: seq<(Json, Json)>, parse: Json -> S) {
    && (forall name :: Has(d, name) <==> exists i: nat :: LastItem(items, i, name))
    && (forall i: nat, name | LastItem(items, i, name) :: Get(d, name) == Some(parse(items[i].1)))
    && (forall a, b | 0 <= a < b < |d| :: FirstItem(items, d[a].0) < FirstItem(items, d[b].0))
  }

  /** Some pair has a name that cannot be a key. */
  predicate Unnameable(items: seq<(Json, Json)>) {
    exists i | 0 <= i < |items| :: !Falsy(items[i].0) && Unhashable(items[i].0)
  }

  /** The normalised inputs of a document, as both parsers build them. */
  method Parse<S>(doc: Fields<Json>, parse: Json -> S) returns (r: Option<Table<Json, S>>)
    ensures r == None <==> Unnameable(Items(Lookup(doc, "inputs")))
    ensures r.Some? ==> Collected(r.value, Items(Lookup(doc, "inputs")), parse)
    ensures r == Collect(Items(Lookup(doc, "inputs")), parse)
  {
    r := ParseItems(Items(Lookup(doc, "inputs")), parse);
    CollectHolds(Items(Lookup(doc, "inputs")), parse);
  }

  /** Their loop. */
  method ParseItems<S>(items: seq<(Json, Json)>, parse: Json -> S) returns (r: Option<Table<Json, S>>)
    ensures r == Collect(items, parse)
  {
    var result: Table<Json, S> := [];
    var k := 0;
    while k < |items|
      invariant 0 <= k <= |items|
      invariant Collect(items[..k], parse) == Some(result)
    {
      assert items[..k + 1][..k] == items[..k];
      var name, spec := items[k].0, items[k].1;
      if !Falsy(name) {
        if Unhashable(name) {
          CollectFails(items, parse, k + 1);
          return None;
        }
        result := Put(result, name, parse(spec));
      }
      k := k + 1;
    }
    assert items[..k] == items;
    return Some(result);
  }

  lemma LastItemLonger(before: seq<(Json, Json)>, item: (Json, Json), i: nat, name: Json)
    ensures LastItem(before + [item], i, name) <==>
      if item.0 == name then i == |before| && !Falsy(name) else LastItem(before, i, name)
  {
    var items := before + [item];
    assert items[|before|] == item && forall k | 0 <= k < |before| :: items[k] == before[k];
  }

  lemma FirstItemLonger(before: seq<(Json, Json)>, item: (Json, Json), name: Json)
    ensures FirstItem(before + [item], name) ==
      if FirstItem(before, name) < |before| || item.0 == name then FirstItem(before, name) else |before| + 1
  {
    var items := before + [item];
    var i, k := FirstItem(before, name), FirstItem(items, name);
    assert items[|before|] == item && forall m | 0 <= m < |before| :: items[m] == before[m];
    assert !(k < i);
  }

  /** A key that is there keeps its place; a new one goes to the end. */
  lemma {:induction false} PutKeys<K, V>(d: Table<K, V>, key: K, v: V)
    ensures Has(d, key) ==> |Put(d, key, v)| == |d| && forall i | 0 <= i < |d| :: Put(d, key, v)[i].0 == d[i].0
    ensures !Has(d, key) ==> Put(d, key, v) == d + [(key, v)]
    decreases |d|
  {
    if d != [] && d[0].0 != key {
      PutKeys(d[1..], key, v);
      assert Put(d, key, v)[1..] == Put(d[1..], key, v);
      assert d == [d[0]] + d[1..];
    }
  }

  lemma {:induction false} CollectHolds<S>(items: seq<(Json, Json)>, parse: Json -> S)
    ensures Collect(items, parse) == None <==> Unnameable(items)
    ensures Collect(items, parse).Some? ==> Collected(Collect(items, parse).value, items, parse)
    decreases |items|
  {
    if items != [] {
      var before, item := items[..|items| - 1], items[|items| - 1];
      assert items == before + [item];
      CollectHolds(before, parse);
      assert Unnameable(items) <==> Unnameable(before) || (!Falsy(item.0) && Unhashable(item.0));
      if Collect(items, parse).Some? { CollectGrows(before, item, parse, Collect(before, parse).value); }
    }
  }

  lemma CollectGrows<S>(before: seq<(Json, Json)>, item: (Json, Json), parse: Json -> S, d: Table<Json, S>)
    requires Collected(d, before, parse)
    ensures Collected(if Falsy(item.0) then d else Put(d, item.0, parse(item.1)), before + [item], parse)
  {
    var items, e := before + [item], if Falsy(item.0) then d else Put(d, item.0, parse(item.1));
    forall i: nat, name ensures LastItem(items, i, name) <==> if item.0 == name then i == |before| && !Falsy(name) else LastItem(before, i, name) {
      LastItemLonger(before, item, i, name);
    }
    EntriesGrow(before, item, parse, d, e);
    if Falsy(item.0) {
      forall a | 0 <= a < |d| ensures FirstItem(items, d[a].0) == FirstItem(before, d[a].0) { KeyOccurs(before, item, d, a); }
    } else {
      OrderGrows(before, item, d, parse(item.1));
    }
  }

  lemma EntriesGrow<S>(before: seq<(Json, Json)>, item: (Json, Json), parse: Json -> S, d: Table<Json, S>, e: Table<Json, S>)
    requires Collected(d, before, parse) && e == if Falsy(item.0) then d else Put(d, item.0, parse(item.1))
    ensures forall name :: Has(e, name) <==> exists i: nat :: LastItem(before + [item], i, name)
    ensures forall i: nat, name | LastItem(before + [item], i, name) :: Get(e, name) == Some(parse((before + [item])[i].1))
  {
    var items := before + [item];
    forall i: nat, name ensures LastItem(items, i, name) <==> if item.0 == name then i == |before| && !Falsy(name) else LastItem(before, i, name) {
      LastItemLonger(before, item, i, name);
    }
    forall name ensures Get(e, name) == if name == item.0 && !Falsy(name) then Some(parse(item.1)) else Get(d, name) {
      if !Falsy(item.0) { GetPut(d, item.0, parse(item.1), name); }
    }
    forall name ensures Has(e, name) <==> exists i: nat :: LastItem(items, i, name) {
      if name == item.0 {
        assert !Falsy(name) ==> LastItem(items, |before|, name);
        assert Falsy(name) ==> forall i: nat :: !LastItem(before, i, name);
      } else {
        assert Has(d, name) <==> exists i: nat :: LastItem(before, i, name);
      }
    }
  }

  lemma {:induction false} KeyIsThere<K, V>(d: Table<K, V>, i: nat)
    requires i < |d|
    ensures Has(d, d[i].0)
    decreases |d|
  {
    if d[0].0 != d[i].0 { KeyIsThere(d[1..], i - 1); }
  }

  lemma {:induction false} LastExists(items: seq<(Json, Json)>, i: nat) returns (j: nat)
    requires i < |items| && !Falsy(items[i].0)
    ensures LastItem(items, j, items[i].0)
    decreases |items| - i
  {
    if LastItem(items, i, items[i].0) { return i; }
    var k :| i < k < |items| && items[k].0 == items[i].0;
    j := LastExists(items, k);
  }

  /** A key of the table occurs, and keeps its first place. */
  lemma KeyOccurs<S>(before: seq<(Json, Json)>, item: (Json, Json), d: Table<Json, S>, a: nat)
    requires a < |d| && forall name | Has(d, name) :: exists i: nat :: LastItem(before, i, name)
    ensures FirstItem(before + [item], d[a].0) == FirstItem(before, d[a].0) < |before|
  {
    KeyIsThere(d, a);
    var i: nat :| LastItem(before, i, d[a].0);
    FirstItemLonger(before, item, d[a].0);
  }

  lemma NewIsLast<S>(before: seq<(Json, Json)>, item: (Json, Json), d: Table<Json, S>)
    requires !Falsy(item.0) && !Has(d, item.0)
    requires forall name :: Has(d, name) <==> exists i: nat :: LastItem(before, i, name)
    ensures FirstItem(before + [item], item.0) == |before|
  {
    var i := FirstItem(before, item.0);
    if i < |before| {
      var j := LastExists(before, i);
    }
    FirstItemLonger(before, item, item.0);
  }

  lemma OrderGrows<S>(before: seq<(Json, Json)>, item: (Json, Json), d: Table<Json, S>, v: S)
    requires !Falsy(item.0)
    requires forall name :: Has(d, name) <==> exists i: nat :: LastItem(before, i, name)
    requires forall a, b | 0 <= a < b < |d| :: FirstItem(before, d[a].0) < FirstItem(before, d[b].0)
    ensures var e := Put(d, item.0, v);
      forall a, b | 0 <= a < b < |e| :: FirstItem(before + [item], e[a].0) < FirstItem(before + [item], e[b].0)
  {
    forall a | 0 <= a < |d| ensures FirstItem(before + [item], d[a].0) == FirstItem(before, d[a].0) < |before| {
      KeyOccurs(before, item, d, a);
    }
    PutKeys(d, item.0, v);
    if !Has(d, item.0) { NewIsLast(before, item, d); }
  }

  lemma {:induction false} CollectFails<S>(items: seq<(Json, Json)>, parse: Json -> S, k: nat)
    requires k <= |items| && Collect(items[..k], parse) == None
    ensures Collect(items, parse) == None
    decreases |items| - k
  {
    if k < |items| {
      assert items[..k + 1][..k] == items[..k];
      CollectFails(items, parse, k + 1);
    } else {
      assert items[..k] == items;
    }
  }

  /** Two tables with the same keys in the same order, with the same flags. */
  ghost predicate Agree(e: Table<Json, ExecInput>, a: Table<Json, ApiInput>) {
    |e| == |a| && forall i | 0 <= i < |e| :: e[i].0 == a[i].0 && e[i].1.flags == a[i].1.flags
  }

  lemma FlagsAgree(spec: Json)
    ensures ParseExec(spec).flags == ParseApi(spec).flags
  {
    if spec.Dict? && !Has(spec.fields, "type") { assert Lookup(spec.fields, "type") == Null; }
  }

  lemma {:induction false} PutAgrees(e: Table<Json, ExecInput>, a: Table<Json, ApiInput>, name: Json, x: ExecInput, y: ApiInput)
    requires Agree(e, a) && x.flags == y.flags
    ensures Agree(Put(e, name, x), Put(a, name, y))
    decreases |e|
  {
    if e != [] {
      assert forall i | 0 <= i < |e| - 1 :: e[1..][i] == e[i + 1] && a[1..][i] == a[i + 1];
      PutAgrees(e[1..], a[1..], name, x, y);
    }
  }

  lemma {:induction false} CollectAgrees(items: seq<(Json, Json)>)
    ensures Collect(items, ParseExec).Some? <==> Collect(items, ParseApi).Some?
    ensures Collect(items, ParseExec).Some? ==> Agree(Collect(items, ParseExec).value, Collect(items, ParseApi).value)
    decreases |items|
  {
    if items != [] {
      var (name, spec) := items[|items| - 1];
      var before := items[..|items| - 1];
      CollectAgrees(before);
      FlagsAgree(spec);
      if Collect(before, ParseExec).Some? {
        PutAgrees(Collect(before, ParseExec).value, Collect(before, ParseApi).value, name, ParseExec(spec), ParseApi(spec));
      }
    }
  }

  /** The two parsers agree on every document: both fail or both give the same names, in the same
      order, with the same default, optionality and requiredness. */
  lemma ParsersAgree(doc: Fields<Json>)
    ensures ExecInputs(doc).Some? <==> ApiInputs(doc).Some?
    ensures ExecInputs(doc).Some? ==> Agree(ExecInputs(doc).value, ApiInputs(doc).value)
  {
    CollectAgrees(Items(Lookup(doc, "inputs")));
  }

  // The tables, read off the document.

  predicate IsEntry(e: Json, name: Json) {
    e.Dict? && Lookup(e.fields, "id") == name
  }

  /** Entry `i` of a list is the last with the id. */
  predicate LastEntry(es: seq<Json>, i: nat, name: Json) {
    i < |es| && IsEntry(es[i], name) && forall k | i < k < |es| :: !IsEntry(es[k], name)
  }

  /** Field `i` of a mapping is the last with the name. */
  predicate LastField(f: Fields<Json>, i: nat, name: Json) {
    i < |f| && Str(f[i].0) == name && forall k | i < k < |f| :: Str(f[k].0) != name
  }

  /** `spec` is the last specification of `name` in an inputs block: a mapping by name, or a list of entries
      with ids. */
  ghost predicate Specifies(block: Json, name: Json, spec: Json) {
    match block
    case Dict(f) => exists i: nat :: LastField(f, i, name) && f[i].1 == spec
    case List(es) => exists i: nat :: LastEntry(es, i, name) && es[i] == spec
    case _ => false
  }

  /** A name that Python takes for true. */
  predicate Named(name: Json) {
    match name
    case Null => false
    case Bool(b) => b
    case Num(n) => n != 0.0
    case Str(s) => |s| > 0
    case List(items) => |items| > 0
    case Dict(f) => |f| > 0
  }

  /** A specification that asks for a value: its type neither ends in `?` nor lists null, and it has no default. */
  predicate Mandatory(spec: Json) {
    var kind := if spec.Dict? then Lookup(spec.fields, "type") else spec;
    && !(kind.Str? && |kind.s| > 0 && kind.s[|kind.s| - 1] == '?')
    && !(kind.List? && Str("null") in kind.items)
    && !(spec.Dict? && Has(spec.fields, "default"))
  }

  /** The default of a specification. */
  function DefaultOf(spec: Json): Option<Json> {
    if spec.Dict? then Get(spec.fields, "default") else None
  }

  lemma {:induction false} ListItemsLast(before: seq<Json>, e: Json)
    ensures ListItems(before + [e]) == ListItems(before) + if e.Dict? then [(Lookup(e.fields, "id"), e)] else []
  {
    if before == [] {
      assert [] + [e] == [e] && [e][1..] == [];
    } else {
      var rest, last := before[1..], if e.Dict? then [(Lookup(e.fields, "id"), e)] else [];
      var first := if before[0].Dict? then [(Lookup(before[0].fields, "id"), before[0])] else [];
      ListItemsLast(rest, e);
      assert (before + [e])[0] == before[0] && (before + [e])[1..] == rest + [e];
      assert ListItems(before) == first + ListItems(rest) && ListItems(before + [e]) == first + (ListItems(rest) + last);
      assert first + (ListItems(rest) + last) == (first + ListItems(rest)) + last;
    }
  }

  /** Some pair of the list is the last with the name, and specifies it so. */
  ghost predicate LastIs(items: seq<(Json, Json)>, name: Json, spec: Json) {
    exists i: nat :: LastItem(items, i, name) && items[i].1 == spec
  }

  lemma LastIsLonger(before: seq<(Json, Json)>, item: (Json, Json), name: Json, spec: Json)
    requires !Falsy(name)
    ensures LastIs(before + [item], name, spec) <==> if item.0 == name then item.1 == spec else LastIs(before, name, spec)
  {
    var items := before + [item];
    forall i: nat ensures LastItem(items, i, name) <==> if item.0 == name then i == |before| && !Falsy(name) else LastItem(before, i, name) {
      LastItemLonger(before, item, i, name);
    }
    if item.0 == name {
      assert LastItem(items, |before|, name) && items[|before|].1 == item.1;
    } else {
      if LastIs(before, name, spec) {
        var i: nat :| LastItem(before, i, name) && before[i].1 == spec;
        assert LastItem(items, i, name) && items[i].1 == spec;
      }
      if i: nat :| LastItem(items, i, name) && items[i].1 == spec {
        assert LastItem(before, i, name) && before[i].1 == spec;
      }
    }
  }

  lemma SpecifiesLonger(before: seq<Json>, e: Json, name: Json, spec: Json)
    ensures Specifies(List(before + [e]), name, spec) <==> if IsEntry(e, name) then e == spec else Specifies(List(before), name, spec)
  {
    var es := before + [e];
    forall i: nat ensures LastEntry(es, i, name) <==> if IsEntry(e, name) then i == |before| else LastEntry(before, i, name) {
      LastEntryLonger(before, e, i, name);
    }
    if IsEntry(e, name) {
      assert LastEntry(es, |before|, name) && es[|before|] == e;
    } else {
      if i: nat :| LastEntry(before, i, name) && before[i] == spec { assert LastEntry(es, i, name) && es[i] == spec; }
      if i: nat :| LastEntry(es, i, name) && es[i] == spec { assert LastEntry(before, i, name) && before[i] == spec; }
    }
  }

  lemma LastEntryLonger(before: seq<Json>, e: Json, i: nat, name: Json)
    ensures LastEntry(before + [e], i, name) <==> if IsEntry(e, name) then i == |before| else LastEntry(before, i, name)
  {
    assert (before + [e])[|before|] == e && forall k | 0 <= k < |before| :: (before + [e])[k] == before[k];
  }

  lemma {:induction false} ListSpecifies(es: seq<Json>, name: Json, spec: Json)
    requires !Falsy(name)
    ensures LastIs(ListItems(es), name, spec) <==> Specifies(List(es), name, spec)
  {
    if es != [] {
      var before, e := es[..|es| - 1], es[|es| - 1];
      assert es == before + [e];
      ListSpecifies(before, name, spec);
      ListItemsLast(before, e);
      SpecifiesLonger(before, e, name, spec);
      if e.Dict? {
        LastIsLonger(ListItems(before), (Lookup(e.fields, "id"), e), name, spec);
      } else {
        assert ListItems(before) + [] == ListItems(before);
      }
    }
  }

  lemma SpecifiesIff(block: Json, name: Json, spec: Json)
    requires Named(name)
    ensures LastIs(Items(block), name, spec) <==> Specifies(block, name, spec)
  {
    match block {
      case Dict(f) =>
        var items := Items(block);
        forall i: nat ensures LastField(f, i, name) <==> LastItem(items, i, name) { }
        if i: nat :| LastField(f, i, name) && f[i].1 == spec { assert LastItem(items, i, name) && items[i].1 == spec; }
        if i: nat :| LastItem(items, i, name) && items[i].1 == spec { assert LastField(f, i, name) && f[i].1 == spec; }
      case List(es) => ListSpecifies(es, name, spec);
      case _ =>
    }
  }

  lemma MandatoryIff(spec: Json)
    ensures ParseExec(spec).flags.required <==> Mandatory(spec)
    ensures ParseExec(spec).flags.optional <==> !Mandatory(spec)
    ensures ParseExec(spec).flags.hasDefault <==> DefaultOf(spec).Some?
    ensures ParseExec(spec).flags.default == match DefaultOf(spec) case None => Null case Some(v) => v
  {
  }

  /** Both tables have exactly the names that count, each with the flags of its last specification: required
      when that asks for a value, optional otherwise, with its default. */
  lemma TablesAre(doc: Fields<Json>, name: Json, spec: Json)
    requires ExecInputs(doc).Some? && ApiInputs(doc).Some? && Specifies(Lookup(doc, "inputs"), name, spec) && Named(name)
    ensures Has(ExecInputs(doc).value, name) && Has(ApiInputs(doc).value, name)
    ensures var e, a := Get(ExecInputs(doc).value, name).value, Get(ApiInputs(doc).value, name).value;
      && e.flags == a.flags
      && (e.flags.required <==> Mandatory(spec)) && (e.flags.optional <==> !Mandatory(spec))
      && (e.flags.hasDefault <==> DefaultOf(spec).Some?)
      && e.flags.default == (match DefaultOf(spec) case None => Null case Some(v) => v)
      && e.kind == (if spec.Dict? then Lookup(spec.fields, "type") else spec)
      && a.doc == (if spec.Dict? then Lookup(spec.fields, "doc") else Null)
      && var shown := if spec.Dict? && Has(spec.fields, "type") && !(Lookup(spec.fields, "type") == Str("enum") && Has(spec.fields, "symbols"))
          then Lookup(spec.fields, "type") else spec;
        a.kind == TypeName(shown) && a.symbols == Symbols(shown)
  {
    var items := Items(Lookup(doc, "inputs"));
    SpecifiesIff(Lookup(doc, "inputs"), name, spec);
    CollectHolds(items, ParseExec);
    CollectHolds(items, ParseApi);
    var i: nat :| LastItem(items, i, name) && items[i].1 == spec;
    MandatoryIff(spec);
    FlagsAgree(spec);
  }

  lemma NamesAre(doc: Fields<Json>, name: Json)
    requires ExecInputs(doc).Some?
    ensures Has(ExecInputs(doc).value, name) <==> Named(name) && exists spec :: Specifies(Lookup(doc, "inputs"), name, spec)
  {
    var items := Items(Lookup(doc, "inputs"));
    CollectHolds(items, ParseExec);
    if i: nat :| LastItem(items, i, name) {
      assert LastIs(items, name, items[i].1);
      SpecifiesIff(Lookup(doc, "inputs"), name, items[i].1);
    } else if Named(name) {
      forall spec ensures !Specifies(Lookup(doc, "inputs"), name, spec) { SpecifiesIff(Lookup(doc, "inputs"), name, spec); }
    }
  }

  /** Building a table fails exactly when a name that counts is a list or a dictionary. */
  lemma TableFailsIff(doc: Fields<Json>)
    ensures ExecInputs(doc) == None <==>
      exists name, spec :: Specifies(Lookup(doc, "inputs"), name, spec) && Named(name) && (name.List? || name.Dict?)
  {
    var block, items := Lookup(doc, "inputs"), Items(Lookup(doc, "inputs"));
    CollectHolds(items, ParseExec);
    if i :| 0 <= i < |items| && !Falsy(items[i].0) && Unhashable(items[i].0) {
      var j := LastExists(items, i);
      assert LastIs(items, items[i].0, items[j].1);
      SpecifiesIff(block, items[i].0, items[j].1);
      assert Specifies(block, items[i].0, items[j].1);
    }
    if name, spec :| Specifies(block, name, spec) && Named(name) && (name.List? || name.Dict?) {
      SpecifiesIff(block, name, spec);
      var i: nat :| LastItem(items, i, name) && items[i].1 == spec;
      assert !Falsy(items[i].0) && Unhashable(items[i].0);
    }
  }

  // Filling the inputs.

  predicate Supplied(inputs: Fields<Json>, name: Json) {
    name.Str? && Has(inputs, name.s)
  }

  /** _missing_required_inputs. */
  function Missing(declared: Table<Json, ExecInput>, inputs: Fields<Json>): seq<Json> {
    if declared == [] then []
    else
      var (name, spec) := declared[0];
      (if spec.flags.required && !Supplied(inputs, name) then [name] else []) + Missing(declared[1..], inputs)
  }

  const AUTO_INPUTS := [("job_id", "OPENEO_JOB_ID"), ("user_id", "OPENEO_USER_ID")]

  /** run_udf's injection of staged data, a path to a file or a directory. */
  function Inject(context: Fields<Json>, data: Option<string>, isDir: bool): Fields<Json> {
    if data.Some? && data.value != "" && data.value[0] == '/' && !Has(context, "openeo_data") then
      Put(context, "openeo_data", Dict([("class", Str(if isDir then "Directory" else "File")), ("location", Str("file://" + data.value))]))
    else context
  }

  /** One turn of _auto_wire_inputs. */
  function Wire(declared: Table<Json, ExecInput>, wired: Fields<Json>, env: map<string, string>, name: string, key: string): Fields<Json> {
    if Has(declared, Str(name)) && !Has(wired, name) && key in env then Put(wired, name, Str(env[key])) else wired
  }

  function WireAll(declared: Table<Json, ExecInput>, inputs: Fields<Json>, env: map<string, string>, auto: seq<(string, string)>): Fields<Json> {
    if auto == [] then inputs
    else Wire(declared, WireAll(declared, inputs, env, auto[..|auto| - 1]), env, auto[|auto| - 1].0, auto[|auto| - 1].1)
  }

  /** _auto_wire_inputs. */
  method AutoWire(declared: Table<Json, ExecInput>, inputs: Fields<Json>, env: map<string, string>) returns (wired: Fields<Json>)
    ensures wired == WireAll(declared, inputs, env, AUTO_INPUTS)
  {
    wired := inputs;
    var k := 0;
    while k < |AUTO_INPUTS|
      invariant 0 <= k <= |AUTO_INPUTS|
      invariant wired == WireAll(declared, inputs, env, AUTO_INPUTS[..k])
    {
      assert AUTO_INPUTS[..k + 1][..k] == AUTO_INPUTS[..k];
      var name, key := AUTO_INPUTS[k].0, AUTO_INPUTS[k].1;
      if Has(declared, Str(name)) && !Has(wired, name) {
        if key in env {
          wired := Put(wired, name, Str(env[key]));
        }
      }
      k := k + 1;
    }
    assert AUTO_INPUTS[..k] == AUTO_INPUTS;
  }

  /** The inputs a job ends up with. */
  function Filled(doc: Fields<Json>, context: Fields<Json>, data: Option<string>, isDir: bool, env: map<string, string>): Fields<Json>
    requires ExecInputs(doc).Some?
  {
    WireAll(ExecInputs(doc).value, Inject(context, data, isDir), env, AUTO_INPUTS)
  }

  /** Whether the executor can fill `name` itself. */
  predicate Fillable(name: Json, data: Option<string>, env: map<string, string>) {
    || (name == Str("openeo_data") && data.Some? && data.value != "" && data.value[0] == '/')
    || (name == Str("job_id") && "OPENEO_JOB_ID" in env)
    || (name == Str("user_id") && "OPENEO_USER_ID" in env)
  }

  lemma FilledWith(doc: Fields<Json>, context: Fields<Json>, data: Option<string>, isDir: bool, env: map<string, string>, key: string)
    requires ExecInputs(doc).Some?
    ensures var inputs := Filled(doc, context, data, isDir, env);
      && (Has(context, key) ==> Get(inputs, key) == Get(context, key))
      && (Has(ExecInputs(doc).value, Str(key)) ==> (Has(inputs, key) <==> Has(context, key) || Fillable(Str(key), data, env)))
  {
    var declared := ExecInputs(doc).value;
    var injected := Inject(context, data, isDir);
    InjectHas(context, data, isDir, key);
    var first := Wire(declared, injected, env, "job_id", "OPENEO_JOB_ID");
    assert AUTO_INPUTS[..1][..0] == [] && AUTO_INPUTS[..2][..1] == AUTO_INPUTS[..1] && AUTO_INPUTS[..2] == AUTO_INPUTS;
    assert WireAll(declared, injected, env, AUTO_INPUTS[..1]) == first;
    WireHas(declared, injected, env, "job_id", "OPENEO_JOB_ID", key);
    WireHas(declared, first, env, "user_id", "OPENEO_USER_ID", key);
  }

  lemma InjectHas(context: Fields<Json>, data: Option<string>, isDir: bool, key: string)
    ensures var injected := Inject(context, data, isDir);
      && (Has(context, key) ==> Get(injected, key) == Get(context, key))
      && (Has(injected, key) <==> Has(context, key) || (key == "openeo_data" && data.Some? && data.value != "" && data.value[0] == '/'))
  {
    if data.Some? && data.value != "" && data.value[0] == '/' && !Has(context, "openeo_data") {
      GetPut(context, "openeo_data", Dict([("class", Str(if isDir then "Directory" else "File")), ("location", Str("file://" + data.value))]), key);
    }
  }

  lemma WireHas(declared: Table<Json, ExecInput>, wired: Fields<Json>, env: map<string, string>, name: string, envKey: string, key: string)
    ensures var after := Wire(declared, wired, env, name, envKey);
      && (Has(wired, key) ==> Get(after, key) == Get(wired, key))
      && (Has(after, key) <==> Has(wired, key) || (key == name && Has(declared, Str(name)) && envKey in env))
  {
    if envKey in env { GetPut(wired, name, Str(env[envKey]), key); }
  }

  /** Every value a job ends up with: the user's own, the staged data, the environment's, and no other. */
  lemma FilledIs(doc: Fields<Json>, context: Fields<Json>, data: Option<string>, isDir: bool, env: map<string, string>, key: string)
    requires ExecInputs(doc).Some?
    ensures Get(Filled(doc, context, data, isDir, env), key) ==
      if Has(context, key) then Get(context, key)
      else if key == "openeo_data" && data.Some? && data.value != "" && data.value[0] == '/' then
        Some(Dict([("class", Str(if isDir then "Directory" else "File")), ("location", Str("file://" + data.value))]))
      else if key == "job_id" && Has(ExecInputs(doc).value, Str("job_id")) && "OPENEO_JOB_ID" in env then Some(Str(env["OPENEO_JOB_ID"]))
      else if key == "user_id" && Has(ExecInputs(doc).value, Str("user_id")) && "OPENEO_USER_ID" in env then Some(Str(env["OPENEO_USER_ID"]))
      else None
  {
    var declared, injected := ExecInputs(doc).value, Inject(context, data, isDir);
    var first := Wire(declared, injected, env, "job_id", "OPENEO_JOB_ID");
    assert AUTO_INPUTS[..1][..0] == [] && AUTO_INPUTS[..2][..1] == AUTO_INPUTS[..1] && AUTO_INPUTS[..2] == AUTO_INPUTS;
    assert WireAll(declared, injected, env, AUTO_INPUTS[..1]) == first;
    InjectIs(context, data, isDir, key);
    WireIs(declared, injected, env, "job_id", "OPENEO_JOB_ID", key);
    WireIs(declared, first, env, "user_id", "OPENEO_USER_ID", key);
  }

  lemma InjectIs(context: Fields<Json>, data: Option<string>, isDir: bool, key: string)
    ensures Get(Inject(context, data, isDir), key) ==
      if Has(context, key) then Get(context, key)
      else if key == "openeo_data" && data.Some? && data.value != "" && data.value[0] == '/' then
        Some(Dict([("class", Str(if isDir then "Directory" else "File")), ("location", Str("file://" + data.value))]))
      else None
  {
    if data.Some? && data.value != "" && data.value[0] == '/' {
      GetPut(context, "openeo_data", Dict([("class", Str(if isDir then "Directory" else "File")), ("location", Str("file://" + data.value))]), key);
    }
  }

  lemma WireIs(declared: Table<Json, ExecInput>, wired: Fields<Json>, env: map<string, string>, name: string, envKey: string, key: string)
    ensures Get(Wire(declared, wired, env, name, envKey), key) ==
      if !Has(wired, key) && key == name && Has(declared, Str(name)) && envKey in env then Some(Str(env[envKey])) else Get(wired, key)
  {
    if envKey in env { GetPut(wired, name, Str(env[envKey]), key); }
  }

  /** What a user leaves open of the form: the required inputs not supplied and not filled. */
  ghost predicate LeftOpen(form: Table<Json, ApiInput>, context: Fields<Json>, data: Option<string>, env: map<string, string>, name: Json) {
    exists i :: 0 <= i < |form| && form[i].0 == name && form[i].1.flags.required && !Supplied(context, name) && !Fillable(name, data, env)
  }

  lemma {:induction false} MissingAre(declared: Table<Json, ExecInput>, inputs: Fields<Json>, name: Json)
    ensures name in Missing(declared, inputs) <==>
      exists i :: 0 <= i < |declared| && declared[i].0 == name && declared[i].1.flags.required && !Supplied(inputs, name)
    decreases |declared|
  {
    if declared != [] {
      var rest := declared[1..];
      MissingAre(rest, inputs, name);
      forall i | 0 <= i < |rest| ensures rest[i] == declared[i + 1] { }
      if name in Missing(rest, inputs) {
        var i :| 0 <= i < |rest| && rest[i].0 == name && rest[i].1.flags.required && !Supplied(inputs, name);
        assert declared[i + 1].0 == name;
      }
      if i :| 0 < i < |declared| && declared[i].0 == name && declared[i].1.flags.required && !Supplied(inputs, name) {
        assert rest[i - 1].0 == name;
      }
    }
  }

  lemma {:induction false} GetIsThere<K, V>(d: Table<K, V>, key: K) returns (i: nat)
    requires Has(d, key)
    ensures i < |d| && d[i] == (key, Get(d, key).value)
    decreases |d|
  {
    if d[0].0 == key { return 0; }
    var k := GetIsThere(d[1..], key);
    i := k + 1;
  }

  lemma {:induction false} OnlyOneEntry<K, V>(d: Table<K, V>, i: nat)
    requires i < |d| && forall a, b | 0 <= a < b < |d| :: d[a].0 != d[b].0
    ensures Get(d, d[i].0) == Some(d[i].1)
    decreases |d|
  {
    if i > 0 { OnlyOneEntry(d[1..], i - 1); }
  }

  lemma RequiredIs(doc: Fields<Json>, name: Json)
    requires ExecInputs(doc).Some? && ApiInputs(doc).Some?
    ensures var d := ExecInputs(doc).value;
      (exists i :: 0 <= i < |d| && d[i].0 == name && d[i].1.flags.required)
      <==> Named(name) && exists spec :: Specifies(Lookup(doc, "inputs"), name, spec) && Mandatory(spec)
  {
    var d, block := ExecInputs(doc).value, Lookup(doc, "inputs");
    CollectHolds(Items(block), ParseExec);
    NamesAre(doc, name);
    if i :| 0 <= i < |d| && d[i].0 == name && d[i].1.flags.required {
      KeyIsThere(d, i);
      OnlyOneEntry(d, i);
      var spec :| Specifies(block, name, spec);
      TablesAre(doc, name, spec);
    }
    if Named(name) {
      if spec :| Specifies(block, name, spec) && Mandatory(spec) {
        TablesAre(doc, name, spec);
        var i := GetIsThere(d, name);
      }
    }
  }

  /** The executor's missing list is exactly what the form left open, for every document, context,
      data argument and environment: the inputs whose last specification asks for a value that neither the
      user nor the backend supplies. No value the user supplied is changed. */
  lemma MissingIsWhatTheFormLeftOpen(
    doc: Fields<Json>, context: Fields<Json>, data: Option<string>, isDir: bool, env: map<string, string>, name: Json)
    requires ExecInputs(doc).Some? && ApiInputs(doc).Some?
    ensures name in Missing(ExecInputs(doc).value, Filled(doc, context, data, isDir, env)) <==>
      LeftOpen(ApiInputs(doc).value, context, data, env, name)
    ensures name in Missing(ExecInputs(doc).value, Filled(doc, context, data, isDir, env)) <==>
      && Named(name) && (exists spec :: Specifies(Lookup(doc, "inputs"), name, spec) && Mandatory(spec))
      && !(name.Str? && Has(context, name.s))
      && !(name == Str("openeo_data") && data.Some? && data.value != "" && data.value[0] == '/')
      && !(name == Str("job_id") && "OPENEO_JOB_ID" in env) && !(name == Str("user_id") && "OPENEO_USER_ID" in env)
    ensures forall key | Has(context, key) :: Get(Filled(doc, context, data, isDir, env), key) == Get(context, key)
  {
    var declared, form := ExecInputs(doc).value, ApiInputs(doc).value;
    var inputs := Filled(doc, context, data, isDir, env);
    ParsersAgree(doc);
    MissingAre(declared, inputs, name);
    forall key | Has(context, key) ensures Get(inputs, key) == Get(context, key) { FilledWith(doc, context, data, isDir, env, key); }
    forall i | 0 <= i < |declared| && declared[i].0 == name
      ensures Supplied(inputs, name) <==> Supplied(context, name) || Fillable(name, data, env)
    {
      KeyIsThere(declared, i);
      if name.Str? { FilledWith(doc, context, data, isDir, env, name.s); }
    }
    RequiredIs(doc, name);
  }

  /** So a user who supplies every required input not flagged as filled leaves nothing missing, when
      the environment names the job and the user and the staged data is an absolute path. */
  lemma FormIsComplete(doc: Fields<Json>, context: Fields<Json>, path: string, isDir: bool, env: map<string, string>)
    requires ExecInputs(doc).Some? && ApiInputs(doc).Some?
    requires "OPENEO_JOB_ID" in env && "OPENEO_USER_ID" in env && path != "" && path[0] == '/'
    requires forall i | 0 <= i < |ApiInputs(doc).value| ::
      var (name, input) := ApiInputs(doc).value[i];
      input.flags.required && name != Str("job_id") && name != Str("user_id") && name != Str("openeo_data") ==> Supplied(context, name)
    ensures Missing(ExecInputs(doc).value, Filled(doc, context, Some(path), isDir, env)) == []
  {
    var missing := Missing(ExecInputs(doc).value, Filled(doc, context, Some(path), isDir, env));
    if missing != [] {
      MissingIsWhatTheFormLeftOpen(doc, context, Some(path), isDir, env, missing[0]);
      assert false;
    }
  }
}
