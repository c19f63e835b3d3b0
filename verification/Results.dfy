/** The API's side of delivery: the links handed out for a job's results, and the endpoints they point
    at. */
module Results {
  import opened Options
  import opened Json
  import opened Text
  import opened Paths
  import opened Items
  import opened Delivery

  predicate IsS3(h: string) {
    |h| >= 5 && h[..5] == "s3://"
  }

  predicate StartsWith(s: string, prefix: string) {
    |prefix| <= |s| && s[..|prefix|] == prefix
  }

  predicate EndsWithText(s: string, suffix: string) {
    |suffix| <= |s| && s[|s| - |suffix|..] == suffix
  }

  // The links.

  /** Where a link points: the proxy of the job's S3 results, or a file of the user. */
  datatype Link = Proxy(filename: string) | UserFile(path: string)

  function LinkOf(user: Path, h: string): Link {
    if IsS3(h) then Proxy(LastSegment(h))
    else
      var prefix := Absolute(user) + ['/'];
      UserFile(if StartsWith(h, prefix) then h[|prefix|..] else LastSegment(h))
  }

  /** The collection assets of one item: keyed by item id and asset key. */
  function Entries(user: Path, id: string, item: Json): seq<(string, Link)> {
    seq(|AssetsOf(item)|, i requires 0 <= i < |AssetsOf(item)| =>
      (id + (['_'] + AssetsOf(item)[i].0), LinkOf(user, Hrefs(item)[i])))
  }

  predicate HasId(item: Json) {
    item.Dict? && Lookup(item.fields, "id").Str?
  }

  function IdOf(item: Json): string
    requires HasId(item)
  {
    Lookup(item.fields, "id").s
  }

  ghost predicate Listed(items: map<string, Json>, order: seq<string>) {
    forall n | n in order :: n in items && Shaped(items[n]) && HasId(items[n])
  }

  function AllEntries(user: Path, items: map<string, Json>, order: seq<string>): seq<(string, Link)>
    requires Listed(items, order)
  {
    if order == [] then []
    else
      var n := order[|order| - 1];
      assert n in order;
      AllEntries(user, items, order[..|order| - 1]) + Entries(user, IdOf(items[n]), items[n])
  }

  /** The collection's assets after adding the entries one by one. */
  function Added(entries: seq<(string, Link)>): Table<string, Link> {
    if entries == [] then []
    else Put(Added(entries[..|entries| - 1]), entries[|entries| - 1].0, entries[|entries| - 1].1)
  }

  lemma AddedNext(earlier: seq<(string, Link)>, more: seq<(string, Link)>, k: nat)
    requires k < |more|
    ensures Added(earlier + more[..k + 1]) == Put(Added(earlier + more[..k]), more[k].0, more[k].1)
  {
    var longer := earlier + more[..k + 1];
    assert longer[..|longer| - 1] == earlier + more[..k] && longer[|longer| - 1] == more[k];
  }

  lemma EntriesNext(user: Path, items: map<string, Json>, order: seq<string>, i: nat)
    requires i < |order| && Listed(items, order)
    ensures AllEntries(user, items, order[..i + 1])
      == AllEntries(user, items, order[..i]) + Entries(user, IdOf(items[order[i]]), items[order[i]])
  {
    assert order[..i + 1][..i] == order[..i];
  }

  predicate IsCollection(root: Json) {
    root.Dict? && Lookup(root.fields, "type") == Str("Collection")
  }

  /** The link of an asset the collection has itself, as older executors wrote it. */
  function OldLink(job: string, h: string): Link {
    UserFile(job + ("/RESULTS/" + LastSegment(h)))
  }

  function OldLinks(job: string, root: Json): Table<string, Link> {
    seq(|AssetsOf(root)|, i requires 0 <= i < |AssetsOf(root)| => (AssetsOf(root)[i].0, OldLink(job, Hrefs(root)[i])))
  }

  /** The table of links get_results hands out; None when the root of the STAC is no collection. A
      collection with assets of its own hands out no item's. */
  function HandedOut(user: Path, job: string, root: Json, items: map<string, Json>, order: seq<string>): Option<Table<string, Link>>
    requires Listed(items, order)
  {
    if !IsCollection(root) then None
    else if AssetsOf(root) != [] then Some(OldLinks(job, root))
    else Some(Added(AllEntries(user, items, order)))
  }

  /** get_results: the root of the STAC first, then its own assets or those of the items. */
  method GetResults(user: Path, job: string, root: Json, items: map<string, Json>, order: seq<string>) returns (r: Option<Table<string, Link>>)
    requires Listed(items, order)
    ensures r == HandedOut(user, job, root, items, order)
    ensures r.Some? <==> root.Dict? && Get(root.fields, "type") == Some(Str("Collection"))
    ensures r.Some? && AssetsOf(root) != [] ==> |r.value| == |AssetsOf(root)| && forall i | 0 <= i < |r.value| ::
      r.value[i] == (AssetsOf(root)[i].0, UserFile(job + "/RESULTS/" + LastSegment(Hrefs(root)[i])))
  {
    forall i | 0 <= i < |AssetsOf(root)|
      ensures OldLink(job, Hrefs(root)[i]) == UserFile(job + "/RESULTS/" + LastSegment(Hrefs(root)[i]))
    {
      assert job + ("/RESULTS/" + LastSegment(Hrefs(root)[i])) == job + "/RESULTS/" + LastSegment(Hrefs(root)[i]);
    }
    if !IsCollection(root) { return None; }
    var own := AssetsOf(root);
    if own != [] {
      var links: Table<string, Link> := [];
      var k := 0;
      while k < |own|
        invariant 0 <= k <= |own|
        invariant links == OldLinks(job, root)[..k]
      {
        links := links + [(own[k].0, OldLink(job, HrefOf(own[k].1)))];
        k := k + 1;
      }
      assert OldLinks(job, root)[..k] == OldLinks(job, root);
      return Some(links);
    }
    var assets := AddItemAssets(user, items, order);
    return Some(assets);
  }

  /** The loops over the item files. */
  method AddItemAssets(user: Path, items: map<string, Json>, order: seq<string>) returns (assets: Table<string, Link>)
    requires Listed(items, order)
    ensures assets == Added(AllEntries(user, items, order))
  {
    assets := [];
    var i := 0;
    while i < |order|
      invariant 0 <= i <= |order|
      invariant assets == Added(AllEntries(user, items, order[..i]))
    {
      EntriesNext(user, items, order, i);
      var item := items[order[i]];
      ghost var earlier, more := AllEntries(user, items, order[..i]), Entries(user, IdOf(item), item);
      var of := AssetsOf(item);
      var k := 0;
      TakeAll(earlier, more);
      while k < |of|
        invariant 0 <= k <= |of| == |more|
        invariant assets == Added(earlier + more[..k])
      {
        AddedNext(earlier, more, k);
        var link := LinkOf(user, HrefOf(of[k].1));
        assets := Put(assets, IdOf(item) + (['_'] + of[k].0), link);
        k := k + 1;
      }
      i := i + 1;
    }
    assert order[..i] == order;
  }

  /** The last entry with a key. */
  predicate LastFor(entries: seq<(string, Link)>, i: nat) {
    i < |entries| && forall j | i < j < |entries| :: entries[j].0 != entries[i].0
  }

  lemma {:induction false} AddedHasLast(entries: seq<(string, Link)>, i: nat)
    requires LastFor(entries, i)
    ensures Get(Added(entries), entries[i].0) == Some(entries[i].1)
    decreases |entries|
  {
    var last := |entries| - 1;
    GetPut(Added(entries[..last]), entries[last].0, entries[last].1, entries[i].0);
    if i < last { AddedHasLast(entries[..last], i); }
  }

  lemma {:induction false} LastExists(entries: seq<(string, Link)>, i: nat) returns (j: nat)
    requires i < |entries|
    ensures LastFor(entries, j) && entries[j].0 == entries[i].0
    decreases |entries| - i
  {
    if LastFor(entries, i) { return i; }
    var k :| i < k < |entries| && entries[k].0 == entries[i].0;
    j := LastExists(entries, k);
  }

  /** Every asset's link is handed out exactly when assets under one key have one link. */
  lemma EveryLinkHandedOutIff(user: Path, items: map<string, Json>, order: seq<string>)
    requires Listed(items, order)
    ensures var es := AllEntries(user, items, order);
      (forall i | 0 <= i < |es| :: Get(Added(es), es[i].0) == Some(es[i].1))
      <==> forall i, j | 0 <= i < |es| && 0 <= j < |es| && es[i].0 == es[j].0 :: es[i].1 == es[j].1
  {
    var es := AllEntries(user, items, order);
    if forall i, j | 0 <= i < |es| && 0 <= j < |es| && es[i].0 == es[j].0 :: es[i].1 == es[j].1 {
      forall i | 0 <= i < |es| ensures Get(Added(es), es[i].0) == Some(es[i].1) {
        var j := LastExists(es, i);
        AddedHasLast(es, j);
      }
    }
  }

  /** The composite key of an asset, and its link. */
  function KeyAt(item: Json, i: nat): string
    requires HasId(item) && i < |AssetsOf(item)|
  {
    IdOf(item) + (['_'] + AssetsOf(item)[i].0)
  }

  function LinkAt(user: Path, item: Json, i: nat): Link
    requires i < |Hrefs(item)|
  {
    LinkOf(user, Hrefs(item)[i])
  }

  lemma {:induction false} EntryIn(user: Path, items: map<string, Json>, order: seq<string>, n: string, i: nat) returns (k: nat)
    requires Listed(items, order) && n in order && i < |Hrefs(items[n])|
    ensures k < |AllEntries(user, items, order)| && AllEntries(user, items, order)[k] == (KeyAt(items[n], i), LinkAt(user, items[n], i))
    decreases |order|
  {
    var last := |order| - 1;
    var before := AllEntries(user, items, order[..last]);
    if order[last] == n {
      k := |before| + i;
      assert AllEntries(user, items, order)[k] == Entries(user, IdOf(items[n]), items[n])[i];
    } else {
      assert n in order[..last];
      k := EntryIn(user, items, order[..last], n, i);
      assert AllEntries(user, items, order)[k] == before[k];
    }
  }

  lemma {:induction false} EntryFrom(user: Path, items: map<string, Json>, order: seq<string>, k: nat) returns (n: string, i: nat)
    requires Listed(items, order) && k < |AllEntries(user, items, order)|
    ensures n in order && i < |Hrefs(items[n])|
    ensures AllEntries(user, items, order)[k] == (KeyAt(items[n], i), LinkAt(user, items[n], i))
    decreases |order|
  {
    var last := |order| - 1;
    var before := AllEntries(user, items, order[..last]);
    if k < |before| {
      n, i := EntryFrom(user, items, order[..last], k);
      assert AllEntries(user, items, order)[k] == before[k];
    } else {
      n, i := order[last], k - |before|;
      assert n in order && AllEntries(user, items, order)[k] == Entries(user, IdOf(items[n]), items[n])[i];
    }
  }

  /** What the collection holds was added. */
  lemma {:induction false} AddedFrom(entries: seq<(string, Link)>, key: string) returns (k: nat)
    requires Has(Added(entries), key)
    ensures k < |entries| && entries[k] == (key, Get(Added(entries), key).value)
    decreases |entries|
  {
    var last := |entries| - 1;
    GetPut(Added(entries[..last]), entries[last].0, entries[last].1, key);
    if entries[last].0 == key { k := last; } else { k := AddedFrom(entries[..last], key); }
  }

  /** Every link handed out is the link of an asset with that key. */
  lemma HandedOutFrom(user: Path, items: map<string, Json>, order: seq<string>, key: string) returns (n: string, i: nat)
    requires Listed(items, order) && Has(Added(AllEntries(user, items, order)), key)
    ensures n in order && i < |Hrefs(items[n])| && KeyAt(items[n], i) == key
    ensures Get(Added(AllEntries(user, items, order)), key) == Some(LinkAt(user, items[n], i))
  {
    var k := AddedFrom(AllEntries(user, items, order), key);
    n, i := EntryFrom(user, items, order, k);
  }

  /** A key: the id of an item, an underscore and the key of one of its assets. */
  predicate IsKeyOf(item: Json, i: nat, key: string) {
    && item.Dict? && Get(item.fields, "id").Some? && Get(item.fields, "id").value.Str? && i < |AssetsOf(item)|
    && key == Get(item.fields, "id").value.s + "_" + AssetsOf(item)[i].0
  }

  /** The table has exactly the keys of the assets, each with the link of an asset of that key. */
  lemma TableKeys(user: Path, items: map<string, Json>, order: seq<string>, key: string)
    requires Listed(items, order)
    ensures Has(Added(AllEntries(user, items, order)), key) <==> exists n, i: nat :: n in order && IsKeyOf(items[n], i, key)
  {
    var es := AllEntries(user, items, order);
    forall n, i: nat | n in order && i < |AssetsOf(items[n])| ensures IsKeyOf(items[n], i, key) <==> key == KeyAt(items[n], i) {
      assert IdOf(items[n]) + (['_'] + AssetsOf(items[n])[i].0) == IdOf(items[n]) + "_" + AssetsOf(items[n])[i].0;
    }
    if Has(Added(es), key) { var n, i := HandedOutFrom(user, items, order, key); }
    if n, i: nat :| n in order && IsKeyOf(items[n], i, key) {
      var k := EntryIn(user, items, order, n, i);
      var last := LastExists(es, k);
      AddedHasLast(es, last);
    }
  }

  /** No asset of another link has the key of asset `i` of item `n`. */
  ghost predicate OwnKey(user: Path, items: map<string, Json>, order: seq<string>, n: string, i: nat)
    requires Listed(items, order) && n in order && i < |Hrefs(items[n])|
  {
    forall m, j: nat | m in order && j < |Hrefs(items[m])| && KeyAt(items[m], j) == KeyAt(items[n], i) ::
      LinkAt(user, items[m], j) == LinkAt(user, items[n], i)
  }

  /** An asset with a key of its own has its link handed out. */
  lemma OwnLinkHandedOut(user: Path, items: map<string, Json>, order: seq<string>, n: string, i: nat)
    requires Listed(items, order) && n in order && i < |Hrefs(items[n])| && OwnKey(user, items, order, n, i)
    ensures Get(Added(AllEntries(user, items, order)), KeyAt(items[n], i)) == Some(LinkAt(user, items[n], i))
  {
    var es := AllEntries(user, items, order);
    var k := EntryIn(user, items, order, n, i);
    var last := LastExists(es, k);
    AddedHasLast(es, last);
    var m, j := HandedOutFrom(user, items, order, KeyAt(items[n], i));
  }

  // The endpoints.

  predicate Matches(h: string, filename: string) {
    EndsWithText(h, filename) && IsS3(h)
  }

  function FirstMatch(hs: seq<string>, filename: string): Option<string> {
    if hs == [] then None else if Matches(hs[0], filename) then Some(hs[0]) else FirstMatch(hs[1..], filename)
  }

  function FirstOver(items: map<string, Json>, order: seq<string>, filename: string): Option<string>
    requires forall n | n in order :: n in items
  {
    if order == [] then None
    else
      match FirstMatch(Hrefs(items[order[0]]), filename)
      case Some(h) => Some(h)
      case None => FirstOver(items, order[1..], filename)
  }

  /** An S3 URI that ends with the name. */
  predicate IsOffered(h: string, filename: string) {
    |h| >= 5 && h[..5] == "s3://" && |filename| <= |h| && h[|h| - |filename|..] == filename
  }

  /** `h` is the first of the hrefs to be offered. */
  ghost predicate FirstOffered(hs: seq<string>, h: string, filename: string) {
    exists k :: 0 <= k < |hs| && hs[k] == h && IsOffered(hs[k], filename) && forall j | 0 <= j < k :: !IsOffered(hs[j], filename)
  }

  /** Item `i` of the listing is the first to offer one, and `h` is the first it offers. */
  ghost predicate FirstItemWith(items: map<string, Json>, order: seq<string>, i: nat, h: string, filename: string)
    requires forall n | n in order :: n in items
  {
    && i < |order| && FirstOffered(Hrefs(items[order[i]]), h, filename)
    && forall m, g | 0 <= m < i && g in Hrefs(items[order[m]]) :: !IsOffered(g, filename)
  }

  lemma {:induction false} FirstMatchIsFirst(hs: seq<string>, filename: string)
    ensures match FirstMatch(hs, filename)
      case None => forall h | h in hs :: !IsOffered(h, filename)
      case Some(h) => FirstOffered(hs, h, filename)
  {
    if hs != [] && !Matches(hs[0], filename) {
      FirstMatchIsFirst(hs[1..], filename);
      assert forall k | 0 < k < |hs| :: hs[k] == hs[1..][k - 1];
      if FirstMatch(hs[1..], filename).Some? {
        var h := FirstMatch(hs[1..], filename).value;
        var k :| 0 <= k < |hs| - 1 && hs[1..][k] == h && IsOffered(h, filename) && forall j | 0 <= j < k :: !IsOffered(hs[1..][j], filename);
        assert hs[k + 1] == h;
      }
    }
  }

  lemma FirstItemNext(items: map<string, Json>, order: seq<string>, i: nat, h: string, filename: string)
    requires order != [] && (forall n | n in order :: n in items) && FirstItemWith(items, order[1..], i, h, filename)
    requires forall g | g in Hrefs(items[order[0]]) :: !IsOffered(g, filename)
    ensures FirstItemWith(items, order, i + 1, h, filename)
  {
    var rest := order[1..];
    assert rest[i] == order[i + 1];
    forall m, g | 0 <= m < i + 1 && g in Hrefs(items[order[m]]) ensures !IsOffered(g, filename) {
      if m > 0 { assert rest[m - 1] == order[m]; }
    }
  }

  lemma {:induction false} FirstOverIsFirst(items: map<string, Json>, order: seq<string>, filename: string)
    requires forall n | n in order :: n in items
    ensures match FirstOver(items, order, filename)
      case None => forall n, h | n in order && h in Hrefs(items[n]) :: !IsOffered(h, filename)
      case Some(h) => exists i: nat :: FirstItemWith(items, order, i, h, filename)
    decreases |order|
  {
    if order != [] {
      FirstMatchIsFirst(Hrefs(items[order[0]]), filename);
      if FirstMatch(Hrefs(items[order[0]]), filename) == None {
        var rest := order[1..];
        FirstOverIsFirst(items, rest, filename);
        assert forall n | n in order :: n == order[0] || n in rest;
        if FirstOver(items, rest, filename).Some? {
          var h := FirstOver(items, rest, filename).value;
          var i: nat :| FirstItemWith(items, rest, i, h, filename);
          FirstItemNext(items, order, i, h, filename);
          var k: nat := i + 1;
          assert FirstOver(items, order, filename) == Some(h) && FirstItemWith(items, order, k, h, filename);
        }
      } else {
        var k: nat, h := 0, FirstMatch(Hrefs(items[order[0]]), filename).value;
        assert FirstOver(items, order, filename) == Some(h) && FirstItemWith(items, order, k, h, filename);
      }
    }
  }

  /** The search of s3_proxy_download; None is its 404. */
  method S3ProxyDownload(items: map<string, Json>, order: seq<string>, filename: string) returns (href: Option<string>)
    requires forall n | n in order :: n in items && Shaped(items[n])
    ensures href == FirstOver(items, order, filename)
    ensures match href
      case None => forall n, h | n in order && h in Hrefs(items[n]) :: !IsOffered(h, filename)
      case Some(h) => exists i: nat :: FirstItemWith(items, order, i, h, filename)
  {
    href := None;
    var i := 0;
    assert order[0..] == order;
    while i < |order| && href == None
      invariant 0 <= i <= |order|
      invariant FirstOver(items, order, filename) == if href.Some? then href else FirstOver(items, order[i..], filename)
    {
      assert order[i..][0] == order[i] && order[i..][1..] == order[i + 1..];
      var assets := AssetsOf(items[order[i]]);
      ghost var hs := Hrefs(items[order[i]]);
      var k := 0;
      assert hs[0..] == hs;
      while k < |assets|
        invariant 0 <= k <= |assets| == |hs| && href == None
        invariant FirstMatch(hs, filename) == FirstMatch(hs[k..], filename)
      {
        assert hs[k..][0] == hs[k] && hs[k..][1..] == hs[k + 1..];
        if EndsWithText(HrefOf(assets[k].1), filename) && IsS3(HrefOf(assets[k].1)) {
          href := Some(HrefOf(assets[k].1));
          break;
        }
        k := k + 1;
      }
      i := i + 1;
    }
    FirstOverIsFirst(items, order, filename);
  }

  /** The key s3_download_stream reads: what follows the bucket of the URI, which it drops. */
  function ObjectKey(h: string): string
    requires IsS3(h)
  {
    var rest := h[5..];
    var i := Find(rest, '/');
    if i == |rest| then "" else rest[i + 1..]
  }

  const DEFAULT_BUCKET := "eo-public"

  /** The bucket it reads: that of the API's own environment. */
  function ApiBucket(setting: Option<string>): string {
    match setting case None => DEFAULT_BUCKET case Some(bucket) => bucket
  }

  function Look(objects: Objects, bucket: string, key: string): Option<File> {
    if (bucket, key) in objects then Some(objects[(bucket, key)]) else None
  }

  /** The path of a file of the user: validate_path, where an absolute path replaces the workspace. */
  function UserPath(user: Path, path: string): Path {
    if path != "" && path[0] == '/' then Components(path) else user + Components(path)
  }

  lemma {:induction false} FirstMatchMatches(hs: seq<string>, filename: string)
    ensures match FirstMatch(hs, filename)
      case Some(h) => h in hs && Matches(h, filename)
      case None => forall h | h in hs :: !Matches(h, filename)
  {
    if hs != [] { FirstMatchMatches(hs[1..], filename); }
  }

  /** The match found is the first. */
  lemma {:induction false} FirstMatchAt(hs: seq<string>, filename: string) returns (j: nat)
    requires FirstMatch(hs, filename).Some?
    ensures j < |hs| && hs[j] == FirstMatch(hs, filename).value && Matches(hs[j], filename)
    ensures forall k | 0 <= k < j :: !Matches(hs[k], filename)
  {
    if Matches(hs[0], filename) { return 0; }
    var i := FirstMatchAt(hs[1..], filename);
    assert forall k | 0 < k < i + 1 :: hs[k] == hs[1..][k - 1];
    j := i + 1;
  }

  /** What a link gets from an API whose bucket is `bucket`. */
  function Fetched(items: map<string, Json>, order: seq<string>, bucket: string, objects: Objects, disk: Disk, user: Path, link: Link): Option<File>
    requires forall n | n in order :: n in items
  {
    match link
    case Proxy(filename) =>
      (match FirstOver(items, order, filename)
       case None => None
       case Some(h) =>
         FirstOverMatches(items, order, filename);
         Look(objects, bucket, ObjectKey(h)))
    case UserFile(path) => if UserPath(user, path) in disk.files then Some(disk.files[UserPath(user, path)]) else None
  }

  lemma {:induction false} FirstOverMatches(items: map<string, Json>, order: seq<string>, filename: string)
    requires forall n | n in order :: n in items
    ensures FirstOver(items, order, filename).Some? ==> Matches(FirstOver(items, order, filename).value, filename)
    decreases |order|
  {
    if order != [] {
      FirstMatchMatches(Hrefs(items[order[0]]), filename);
      FirstOverMatches(items, order[1..], filename);
    }
  }

  /** The item a match over all of them comes from. */
  lemma {:induction false} FirstOverFrom(items: map<string, Json>, order: seq<string>, filename: string) returns (n: string)
    requires (forall m | m in order :: m in items) && FirstOver(items, order, filename).Some?
    ensures n in order && FirstMatch(Hrefs(items[n]), filename) == FirstOver(items, order, filename)
    decreases |order|
  {
    if FirstMatch(Hrefs(items[order[0]]), filename).Some? { n := order[0]; } else { n := FirstOverFrom(items, order[1..], filename); }
  }

  lemma {:induction false} FirstOverSome(items: map<string, Json>, order: seq<string>, filename: string, n: string)
    requires (forall m | m in order :: m in items) && n in order && FirstMatch(Hrefs(items[n]), filename).Some?
    ensures FirstOver(items, order, filename).Some?
    decreases |order|
  {
    if order[0] != n { FirstOverSome(items, order[1..], filename, n); }
  }

  // When the lookup is right.

  ghost predicate Enumerates(order: seq<string>, names: set<string>) {
    (forall n :: n in order <==> n in names) && forall i, j | 0 <= i < j < |order| :: order[i] != order[j]
  }

  lemma {:induction false} SomeOrder(names: set<string>) returns (order: seq<string>)
    ensures Enumerates(order, names)
    decreases |names|
  {
    if names == {} { return []; }
    var n :| n in names;
    var rest := SomeOrder(names - {n});
    order := [n] + rest;
  }

  lemma OrderFrom(names: set<string>, n: string) returns (order: seq<string>)
    requires n in names
    ensures Enumerates(order, names) && order != [] && order[0] == n
  {
    var rest := SomeOrder(names - {n});
    order := [n] + rest;
  }

  /** What one item offers for a filename. */
  function Offer(items: map<string, Json>, n: string, filename: string): Option<string>
    requires n in items
  {
    FirstMatch(Hrefs(items[n]), filename)
  }

  /** It offers `h` or nothing. */
  predicate OffersOnly(items: map<string, Json>, n: string, filename: string, h: string)
    requires n in items
  {
    Offer(items, n, filename) == None || Offer(items, n, filename) == Some(h)
  }

  lemma {:induction false} FirstOverIs(items: map<string, Json>, order: seq<string>, filename: string, h: string)
    requires forall n | n in order :: n in items && OffersOnly(items, n, filename, h)
    ensures FirstOver(items, order, filename) == if exists n :: n in order && Offer(items, n, filename) == Some(h) then Some(h) else None
    decreases |order|
  {
    if order != [] && Offer(items, order[0], filename) == None {
      var rest := order[1..];
      FirstOverIs(items, rest, filename, h);
      assert forall n :: n in order <==> n == order[0] || n in rest;
    } else if order != [] {
      assert order[0] in order;
    }
  }

  /** The lookup finds `h` whatever the order of the listing, exactly when some item offers `h` and none
      offers anything else. */
  lemma RightInEveryOrderIff(items: map<string, Json>, filename: string, h: string)
    ensures (forall order | Enumerates(order, items.Keys) :: FirstOver(items, order, filename) == Some(h)) <==>
      && (exists n :: n in items && Offer(items, n, filename) == Some(h))
      && (forall n | n in items :: OffersOnly(items, n, filename, h))
  {
    if (exists n :: n in items && Offer(items, n, filename) == Some(h))
      && (forall n | n in items :: OffersOnly(items, n, filename, h))
    {
      forall order | Enumerates(order, items.Keys) ensures FirstOver(items, order, filename) == Some(h) {
        FirstOverIs(items, order, filename, h);
      }
    } else {
      var bad := WrongOrder(items, filename, h);
    }
  }

  lemma WrongOrder(items: map<string, Json>, filename: string, h: string) returns (order: seq<string>)
    requires !((exists n :: n in items && Offer(items, n, filename) == Some(h))
      && (forall n | n in items :: OffersOnly(items, n, filename, h)))
    ensures Enumerates(order, items.Keys) && FirstOver(items, order, filename) != Some(h)
  {
    if n :| n in items && !OffersOnly(items, n, filename, h) {
      order := OrderFrom(items.Keys, n);
    } else {
      order := SomeOrder(items.Keys);
      FirstOverIs(items, order, filename, h);
    }
  }
}
