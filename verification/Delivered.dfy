/** Every link handed out for a result gets the bytes of the file the asset named before the upload. */
module Delivered {
  import opened Options
  import opened Json
  import opened Text
  import opened Paths
  import opened Items
  import opened Delivery
  import opened Results

  // Strings.

  lemma {:induction false} LastAfterSlash(x: string, n: string)
    requires '/' !in n
    ensures LastSegment(x + (['/'] + n)) == n
    decreases |x|
  {
    var s := x + (['/'] + n);
    var i := Find(x, '/');
    if i == |x| {
      SplitNext(x, '/', n);
      SplitOne(n, '/');
    } else {
      var a, y := x[..i], x[i + 1..];
      assert s == a + (['/'] + (y + (['/'] + n)));
      SplitNext(a, '/', y + (['/'] + n));
      LastAfterSlash(y, n);
    }
  }

  lemma SuffixAfterSlash(x: string, n: string, f: string)
    requires '/' !in f
    ensures EndsWithText(x + (['/'] + n), f) <==> EndsWithText(n, f)
  {
    var s := x + (['/'] + n);
    if |f| <= |n| {
      assert s[|s| - |f|..] == n[|n| - |f|..];
    } else if |f| <= |s| {
      assert s[|s| - |f|..][|f| - |n| - 1] == '/';
    }
  }

  /** All of an upload URI before the last slash. */
  function UriFront(s3: S3): string {
    "s3://" + (s3.bucket + (['/'] + (s3.user + (['/'] + s3.job))))
  }

  lemma UriIs(s3: S3, h: string)
    ensures UriOf(s3, h) == UriFront(s3) + (['/'] + Name(h)) && IsS3(UriOf(s3, h))
  {
  }

  lemma KeyOfUri(s3: S3, h: string)
    requires '/' !in s3.bucket
    ensures IsS3(UriOf(s3, h)) && ObjectKey(UriOf(s3, h)) == Key(s3, Name(h))
  {
    var key := Key(s3, Name(h));
    var rest := s3.bucket + (['/'] + key);
    assert UriOf(s3, h)[5..] == rest;
    FindIs(s3.bucket, '/', ['/'] + key);
    assert rest[|s3.bucket| + 1..] == key;
  }

  lemma KeyTellsName(s3: S3, m: string, n: string)
    requires Key(s3, m) == Key(s3, n)
    ensures m == n
  {
    var front := |s3.user| + 1 + |s3.job| + 1;
    assert Key(s3, m)[front..] == m && Key(s3, n)[front..] == n;
  }

  lemma SameFileSameName(disk: Disk, g: string, h: string)
    requires IsFile(disk, g) && IsFile(disk, h) && At(disk, g) == At(disk, h)
    ensures Name(g) == Name(h)
  {
    NameIsLast(g);
    NameIsLast(h);
    assert Name(g) == At(disk, g)[|At(disk, g)| - 1] && Name(h) == At(disk, h)[|At(disk, h)| - 1];
  }

  // The upload.

  /** Item file `n` has the asset href `h` at place `i`. */
  ghost predicate HasAsset(items: map<string, File>, n: string, i: nat, h: string) {
    n in items && Globbed(n) && items[n].Doc? && i < |Hrefs(items[n].json)| && Hrefs(items[n].json)[i] == h
  }

  /** And it is uploaded. */
  ghost predicate IsSent(disk: Disk, items: map<string, File>, up: Fate, n: string, i: nat, h: string) {
    HasAsset(items, n, i, h) && Goes(disk, h, up(n, i))
  }

  /** Of two uploaded files, the name of neither ends with the name of the other. */
  ghost predicate Apart(disk: Disk, items: map<string, File>, up: Fate) {
    forall m, j: nat, g, n, i: nat, h | IsSent(disk, items, up, m, j, g) && IsSent(disk, items, up, n, i, h) ::
      EndsWithText(Name(g), Name(h)) ==> At(disk, g) == At(disk, h)
  }

  /** Uploaded files of one name are one file. */
  ghost predicate OneFilePerName(disk: Disk, items: map<string, File>, up: Fate) {
    forall m, j: nat, g, n, i: nat, h | IsSent(disk, items, up, m, j, g) && IsSent(disk, items, up, n, i, h) ::
      Name(g) == Name(h) ==> At(disk, g) == At(disk, h)
  }

  ghost predicate AllShaped(items: map<string, File>) {
    forall n | n in items && Globbed(n) :: items[n].Doc? && Shaped(items[n].json)
  }

  ghost predicate NoneOnS3(items: map<string, File>) {
    forall n, i: nat, h | HasAsset(items, n, i, h) :: !IsS3(h)
  }

  lemma {:induction false} AssetIn(items: map<string, File>, order: seq<string>, up: Fate, n: string, i: nat)
    requires (forall m | m in order :: m in items) && n in order && i < |Assets(n, items[n], up)|
    ensures Assets(n, items[n], up)[i] in AllAssets(items, order, up)
    decreases |order|
  {
    var last := |order| - 1;
    if order[last] != n {
      assert n in order[..last];
      AssetIn(items, order[..last], up, n, i);
    }
  }

  lemma {:induction false} AssetFrom(items: map<string, File>, order: seq<string>, up: Fate, a: (string, bool)) returns (n: string, i: nat)
    requires (forall m | m in order :: m in items) && a in AllAssets(items, order, up)
    ensures n in order && i < |Assets(n, items[n], up)| && Assets(n, items[n], up)[i] == a
    decreases |order|
  {
    var last := |order| - 1;
    n := order[last];
    assert n in order;
    if a in Assets(n, items[n], up) {
      i :| 0 <= i < |Assets(n, items[n], up)| && Assets(n, items[n], up)[i] == a;
    } else {
      n, i := AssetFrom(items, order[..last], up, a);
    }
  }

  /** The last uploaded asset of a name. */
  function LastSent(disk: Disk, assets: seq<(string, bool)>, name: string): (g: Option<string>)
    ensures g.Some? ==> IsFile(disk, g.value) && Name(g.value) == name && (g.value, true) in assets
  {
    if assets == [] then None
    else
      var (h, up) := assets[|assets| - 1];
      assert (h, up) in assets;
      if Goes(disk, h, up) && Name(h) == name then Some(h) else LastSent(disk, assets[..|assets| - 1], name)
  }

  lemma {:induction false} LastSentExists(disk: Disk, assets: seq<(string, bool)>, a: (string, bool))
    requires a in assets && Goes(disk, a.0, a.1)
    ensures LastSent(disk, assets, Name(a.0)).Some?
    decreases |assets|
  {
    var last := |assets| - 1;
    if a != assets[last] {
      assert a in assets[..last];
      LastSentExists(disk, assets[..last], a);
    }
  }

  /** The object of a name holds the file of its last upload. */
  lemma {:induction false} StoredHas(s3: S3, disk: Disk, objects: Objects, assets: seq<(string, bool)>, name: string)
    requires LastSent(disk, assets, name).Some?
    ensures var store, at := Stored(s3, disk, objects, assets), (s3.bucket, Key(s3, name));
      at in store && store[at] == disk.files[At(disk, LastSent(disk, assets, name).value)]
    decreases |assets|
  {
    var last := |assets| - 1;
    var (h, up) := assets[last];
    if Goes(disk, h, up) && Key(s3, Name(h)) == Key(s3, name) {
      KeyTellsName(s3, Name(h), name);
    } else {
      StoredHas(s3, disk, objects, assets[..last], name);
    }
  }

  /** What the object store holds under a name after the upload. */
  function Kept(disk: Disk, items: map<string, File>, order: seq<string>, up: Fate, name: string): Option<File>
    requires forall n | n in order :: n in items
  {
    match LastSent(disk, AllAssets(items, order, up), name)
    case None => None
    case Some(g) => Some(disk.files[At(disk, g)])
  }

  lemma ObjectHoldsKept(s3: S3, disk: Disk, objects: Objects, items: map<string, File>, order: seq<string>, up: Fate, n: string, i: nat, h: string)
    requires Lists(order, items) && IsSent(disk, items, up, n, i, h)
    ensures var store, at := Stored(s3, disk, objects, AllAssets(items, order, up)), (s3.bucket, Key(s3, Name(h)));
      at in store && Kept(disk, items, order, up, Name(h)) == Some(store[at])
  {
    AssetIn(items, order, up, n, i);
    LastSentExists(disk, AllAssets(items, order, up), (h, up(n, i)));
    StoredHas(s3, disk, objects, AllAssets(items, order, up), Name(h));
  }

  lemma KeptIsFile(disk: Disk, items: map<string, File>, order: seq<string>, up: Fate, n: string, i: nat, h: string)
    requires Lists(order, items) && OneFilePerName(disk, items, up) && IsSent(disk, items, up, n, i, h)
    ensures Kept(disk, items, order, up, Name(h)) == Some(disk.files[At(disk, h)])
  {
    var assets := AllAssets(items, order, up);
    AssetIn(items, order, up, n, i);
    LastSentExists(disk, assets, (h, up(n, i)));
    var g := LastSent(disk, assets, Name(h)).value;
    var m, j := AssetFrom(items, order, up, (g, true));
    assert IsSent(disk, items, up, m, j, g);
  }

  /** When uploaded files of one name are one file, the object of an uploaded asset holds the file it
      named. */
  lemma ObjectHoldsFile(s3: S3, disk: Disk, objects: Objects, items: map<string, File>, order: seq<string>, up: Fate, n: string, i: nat, h: string)
    requires Lists(order, items) && OneFilePerName(disk, items, up) && IsSent(disk, items, up, n, i, h)
    ensures var store, at := Stored(s3, disk, objects, AllAssets(items, order, up)), (s3.bucket, Key(s3, Name(h)));
      at in store && store[at] == disk.files[At(disk, h)]
  {
    ObjectHoldsKept(s3, disk, objects, items, order, up, n, i, h);
    KeptIsFile(disk, items, order, up, n, i, h);
  }

  /** Uploads to one bucket leave another as it was. */
  lemma {:induction false} StoredElsewhere(s3: S3, disk: Disk, objects: Objects, assets: seq<(string, bool)>, bucket: string, key: string)
    requires bucket != s3.bucket
    ensures Look(Stored(s3, disk, objects, assets), bucket, key) == Look(objects, bucket, key)
    decreases |assets|
  {
    if assets != [] { StoredElsewhere(s3, disk, objects, assets[..|assets| - 1], bucket, key); }
  }

  /** What a bucket holds under the key of an uploaded name after the upload: the last upload of that name,
      or in another bucket what was there. */
  function Held(
    s3: S3, disk: Disk, objects: Objects, items: map<string, File>, order: seq<string>, up: Fate, bucket: string, name: string): Option<File>
    requires forall n | n in order :: n in items
  {
    if bucket == s3.bucket then Kept(disk, items, order, up, name) else Look(objects, bucket, Key(s3, name))
  }

  lemma BucketHolds(
    s3: S3, disk: Disk, bucket: string, objects: Objects, items: map<string, File>, order: seq<string>, up: Fate, n: string, i: nat, h: string)
    requires Lists(order, items) && IsSent(disk, items, up, n, i, h)
    ensures Look(Stored(s3, disk, objects, AllAssets(items, order, up)), bucket, Key(s3, Name(h)))
      == Held(s3, disk, objects, items, order, up, bucket, Name(h))
  {
    if bucket == s3.bucket {
      ObjectHoldsKept(s3, disk, objects, items, order, up, n, i, h);
    } else {
      StoredElsewhere(s3, disk, objects, AllAssets(items, order, up), bucket, Key(s3, Name(h)));
    }
  }

  /** The API reads the bucket of the upload, or one that happens to hold the file under the key. */
  predicate HasFile(s3: S3, objects: Objects, bucket: string, h: string, file: File) {
    bucket == s3.bucket || Look(objects, bucket, Key(s3, Name(h))) == Some(file)
  }

  /** The hrefs after the upload. */
  lemma SentHref(s3: S3, disk: Disk, items: map<string, File>, order: seq<string>, up: Fate, n: string, i: nat, h: string)
    requires Lists(order, items) && AllShaped(items) && HasAsset(items, n, i, h)
    ensures HasAsset(SentItems(s3, disk, items, order, up), n, i, Sent(s3, disk, h, up(n, i)))
  {
    SetHrefsReads(items[n].json, SentAll(s3, disk, Hrefs(items[n].json), n, up));
  }

  /** The href of a listed item's asset after the upload: the URI of its file when that was there and went up. */
  lemma SentIs(s3: S3, disk: Disk, items: map<string, File>, order: seq<string>, up: Fate, n: string, i: nat)
    requires Lists(order, items) && n in items && items[n].Doc? && Shaped(items[n].json) && i < |Hrefs(items[n].json)|
    requires |n| > 5 && n[|n| - 5..] == ".json" && n[0] != '.'
    ensures var h, after := Hrefs(items[n].json)[i], SentItems(s3, disk, items, order, up);
      && n in after && after[n].Doc? && i < |Hrefs(after[n].json)|
      && Hrefs(after[n].json)[i] ==
        if IsFile(disk, h) && up(n, i) then "s3://" + s3.bucket + "/" + (s3.user + "/" + s3.job + "/" + LastSegment(h)) else h
  {
    var h, hs := Hrefs(items[n].json)[i], SentAll(s3, disk, Hrefs(items[n].json), n, up);
    SetHrefsReads(items[n].json, hs);
    assert n in order && hs[i] == Sent(s3, disk, h, up(n, i));
    if IsFile(disk, h) { UriSpelledOut(s3, h); }
  }

  /** A file that is no *.json, or hidden, is left alone. */
  lemma OthersNotSent(s3: S3, disk: Disk, items: map<string, File>, order: seq<string>, up: Fate, n: string)
    requires Lists(order, items) && n in items && !(|n| > 5 && n[|n| - 5..] == ".json" && n[0] != '.')
    ensures SentItems(s3, disk, items, order, up)[n] == items[n]
  {
  }

  lemma WasHref(s3: S3, disk: Disk, items: map<string, File>, order: seq<string>, up: Fate, n: string, i: nat, g: string) returns (h: string)
    requires Lists(order, items) && AllShaped(items) && HasAsset(SentItems(s3, disk, items, order, up), n, i, g)
    ensures HasAsset(items, n, i, h) && g == Sent(s3, disk, h, up(n, i))
  {
    SetHrefsReads(items[n].json, SentAll(s3, disk, Hrefs(items[n].json), n, up));
    h := Hrefs(items[n].json)[i];
  }

  // The links.

  /** The item documents the endpoints read. */
  function Docs(items: map<string, File>): map<string, Json> {
    map n | n in items && Globbed(n) && items[n].Doc? :: items[n].json
  }

  /** Nothing else on S3 ends with the name of an uploaded file. */
  lemma OnlyItsUri(s3: S3, disk: Disk, items: map<string, File>, order: seq<string>, up: Fate, n: string, i: nat, h: string, m: string)
    requires Lists(order, items) && AllShaped(items) && NoneOnS3(items) && Apart(disk, items, up)
    requires IsSent(disk, items, up, n, i, h) && m in Docs(SentItems(s3, disk, items, order, up))
    ensures OffersOnly(Docs(SentItems(s3, disk, items, order, up)), m, Name(h), UriOf(s3, h))
  {
    var after := SentItems(s3, disk, items, order, up);
    var hs := Hrefs(after[m].json);
    FirstMatchMatches(hs, Name(h));
    var offer := FirstMatch(hs, Name(h));
    if offer.Some? {
      var j :| 0 <= j < |hs| && hs[j] == offer.value;
      assert HasAsset(after, m, j, offer.value);
      var g := WasHref(s3, disk, items, order, up, m, j, offer.value);
      assert Goes(disk, g, up(m, j));
      assert IsSent(disk, items, up, m, j, g);
      NameIsLast(h);
      UriIs(s3, g);
      SuffixAfterSlash(UriFront(s3), Name(g), Name(h));
      SameFileSameName(disk, g, h);
    }
  }

  /** The item of an uploaded asset offers its URI. */
  lemma OffersItsUri(s3: S3, disk: Disk, items: map<string, File>, order: seq<string>, up: Fate, n: string, i: nat, h: string)
    requires Lists(order, items) && AllShaped(items) && NoneOnS3(items) && Apart(disk, items, up)
    requires IsSent(disk, items, up, n, i, h)
    ensures n in Docs(SentItems(s3, disk, items, order, up))
    ensures Offer(Docs(SentItems(s3, disk, items, order, up)), n, Name(h)) == Some(UriOf(s3, h))
  {
    var after := SentItems(s3, disk, items, order, up);
    SentHref(s3, disk, items, order, up, n, i, h);
    var hs := Hrefs(after[n].json);
    OnlyItsUri(s3, disk, items, order, up, n, i, h, n);
    FirstMatchMatches(hs, Name(h));
    NameIsLast(h);
    UriIs(s3, h);
    SuffixAfterSlash(UriFront(s3), Name(h), Name(h));
    assert hs[i] in hs && Matches(hs[i], Name(h));
  }

  /** An uploaded asset: its link, resolved by the proxy in any order of the listing, gets the bytes of
      the local file the item named before the upload, exactly when the API's bucket has them. */
  lemma DeliveredFromS3(
    s3: S3, disk: Disk, bucket: string, objects: Objects, items: map<string, File>, order: seq<string>, up: Fate,
    n: string, i: nat, h: string, user: Path, later: Disk, listing: seq<string>)
    requires Lists(order, items) && AllShaped(items) && NoneOnS3(items) && Apart(disk, items, up) && '/' !in s3.bucket
    requires IsSent(disk, items, up, n, i, h)
    requires Enumerates(listing, Docs(SentItems(s3, disk, items, order, up)).Keys)
    ensures var after := SentItems(s3, disk, items, order, up);
      && HasAsset(after, n, i, UriOf(s3, h))
      && (Fetched(Docs(after), listing, bucket, Stored(s3, disk, objects, AllAssets(items, order, up)), later, user, LinkOf(user, UriOf(s3, h)))
          == Some(disk.files[At(disk, h)])
        <==> HasFile(s3, objects, bucket, h, disk.files[At(disk, h)]))
  {
    var docs := Docs(SentItems(s3, disk, items, order, up));
    SentHref(s3, disk, items, order, up, n, i, h);
    NameIsLast(h);
    UriIs(s3, h);
    LastAfterSlash(UriFront(s3), Name(h));
    assert LinkOf(user, UriOf(s3, h)) == Proxy(Name(h));
    OffersItsUri(s3, disk, items, order, up, n, i, h);
    forall m | m in docs ensures OffersOnly(docs, m, Name(h), UriOf(s3, h)) {
      OnlyItsUri(s3, disk, items, order, up, n, i, h, m);
    }
    FirstOverIs(docs, listing, Name(h), UriOf(s3, h));
    KeyOfUri(s3, h);
    forall m, j: nat, g, k, l: nat, f | IsSent(disk, items, up, m, j, g) && IsSent(disk, items, up, k, l, f)
      ensures Name(g) == Name(f) ==> At(disk, g) == At(disk, f)
    {
      assert Name(g) == Name(f) ==> EndsWithText(Name(g), Name(f));
    }
    BucketHolds(s3, disk, bucket, objects, items, order, up, n, i, h);
    KeptIsFile(disk, items, order, up, n, i, h);
  }

  // When the proxy is right.

  /** The first uploaded asset of item `m` whose name ends with `name` has another name. */
  ghost predicate Shadows(disk: Disk, items: map<string, File>, up: Fate, m: string, name: string) {
    exists j: nat, g :: IsSent(disk, items, up, m, j, g) && EndsWithText(Name(g), name) && Name(g) != name
      && forall k: nat, f | k < j && IsSent(disk, items, up, m, k, f) :: !EndsWithText(Name(f), name)
  }

  /** After the upload an href matches when its asset was uploaded and its name ends that way. */
  lemma MatchesIff(s3: S3, disk: Disk, items: map<string, File>, order: seq<string>, up: Fate, m: string, j: nat, g: string, name: string)
    requires Lists(order, items) && AllShaped(items) && NoneOnS3(items) && HasAsset(items, m, j, g) && '/' !in name
    ensures HasAsset(SentItems(s3, disk, items, order, up), m, j, Sent(s3, disk, g, up(m, j)))
    ensures Matches(Sent(s3, disk, g, up(m, j)), name) <==> IsSent(disk, items, up, m, j, g) && EndsWithText(Name(g), name)
  {
    SentHref(s3, disk, items, order, up, m, j, g);
    if Goes(disk, g, up(m, j)) {
      NameIsLast(g);
      UriIs(s3, g);
      SuffixAfterSlash(UriFront(s3), Name(g), name);
    }
  }

  /** The offer of item `m` for a name, when there is one: the first uploaded asset whose name ends
      with it. */
  lemma OfferIs(s3: S3, disk: Disk, items: map<string, File>, order: seq<string>, up: Fate, m: string, name: string)
    returns (j: nat, g: string)
    requires Lists(order, items) && AllShaped(items) && NoneOnS3(items) && '/' !in name
    requires m in Docs(SentItems(s3, disk, items, order, up))
    requires Offer(Docs(SentItems(s3, disk, items, order, up)), m, name).Some?
    ensures IsSent(disk, items, up, m, j, g) && EndsWithText(Name(g), name)
    ensures Offer(Docs(SentItems(s3, disk, items, order, up)), m, name) == Some(UriOf(s3, g))
    ensures forall k: nat, f | k < j && IsSent(disk, items, up, m, k, f) :: !EndsWithText(Name(f), name)
  {
    var after := SentItems(s3, disk, items, order, up);
    var hs := Hrefs(after[m].json);
    j := FirstMatchAt(hs, name);
    assert HasAsset(after, m, j, hs[j]);
    g := WasHref(s3, disk, items, order, up, m, j, hs[j]);
    MatchesIff(s3, disk, items, order, up, m, j, g, name);
    forall k: nat, f | k < j && IsSent(disk, items, up, m, k, f) ensures !EndsWithText(Name(f), name) {
      MatchesIff(s3, disk, items, order, up, m, k, f, name);
    }
  }

  lemma UriTellsName(s3: S3, g: string, h: string)
    requires UriOf(s3, g) == UriOf(s3, h)
    ensures Name(g) == Name(h)
  {
    UriIs(s3, g);
    UriIs(s3, h);
    var n := |UriFront(s3)| + 1;
    assert UriOf(s3, g)[n..] == Name(g) && UriOf(s3, h)[n..] == Name(h);
  }

  lemma OfferIsRightIff(s3: S3, disk: Disk, items: map<string, File>, order: seq<string>, up: Fate, h: string, m: string)
    requires Lists(order, items) && AllShaped(items) && NoneOnS3(items) && '/' !in Name(h)
    requires m in Docs(SentItems(s3, disk, items, order, up))
    ensures OffersOnly(Docs(SentItems(s3, disk, items, order, up)), m, Name(h), UriOf(s3, h)) <==> !Shadows(disk, items, up, m, Name(h))
  {
    var docs, name := Docs(SentItems(s3, disk, items, order, up)), Name(h);
    if Offer(docs, m, name).Some? {
      var j, g := OfferIs(s3, disk, items, order, up, m, name);
      if Name(g) == name {
        assert UriOf(s3, g) == UriOf(s3, h);
        NotShadowed(disk, items, up, m, name, j, g);
      } else {
        if UriOf(s3, g) == UriOf(s3, h) { UriTellsName(s3, g, h); }
      }
    } else if Shadows(disk, items, up, m, name) {
      var j: nat, g :| IsSent(disk, items, up, m, j, g) && EndsWithText(Name(g), name);
      MatchesIff(s3, disk, items, order, up, m, j, g, name);
      FirstMatchMatches(Hrefs(docs[m]), name);
    }
  }

  lemma NotShadowed(disk: Disk, items: map<string, File>, up: Fate, m: string, name: string, j: nat, g: string)
    requires IsSent(disk, items, up, m, j, g) && Name(g) == name
    requires forall k: nat, f | k < j && IsSent(disk, items, up, m, k, f) :: !EndsWithText(Name(f), name)
    ensures !Shadows(disk, items, up, m, name)
  {
    assert EndsWithText(Name(g), name);
    forall l: nat, f | IsSent(disk, items, up, m, l, f) && EndsWithText(Name(f), name) && Name(f) != name
      ensures exists k: nat, e :: k < l && IsSent(disk, items, up, m, k, e) && EndsWithText(Name(e), name)
    {
      assert l != j && !(l < j);
    }
  }

  lemma OffersSome(s3: S3, disk: Disk, items: map<string, File>, order: seq<string>, up: Fate, n: string, i: nat, h: string)
    requires Lists(order, items) && AllShaped(items) && NoneOnS3(items) && IsSent(disk, items, up, n, i, h)
    ensures n in Docs(SentItems(s3, disk, items, order, up))
    ensures Offer(Docs(SentItems(s3, disk, items, order, up)), n, Name(h)).Some?
  {
    NameIsLast(h);
    MatchesIff(s3, disk, items, order, up, n, i, h, Name(h));
    FirstMatchMatches(Hrefs(Docs(SentItems(s3, disk, items, order, up))[n]), Name(h));
  }

  /** In every order of the listing the search finds the URI of an uploaded asset exactly when no item
      lists, before any asset of that name, an uploaded one whose name merely ends with it. */
  lemma FoundInEveryOrderIff(s3: S3, disk: Disk, items: map<string, File>, order: seq<string>, up: Fate, n: string, i: nat, h: string)
    requires Lists(order, items) && AllShaped(items) && NoneOnS3(items) && IsSent(disk, items, up, n, i, h)
    ensures var docs := Docs(SentItems(s3, disk, items, order, up));
      (forall listing | Enumerates(listing, docs.Keys) :: FirstOver(docs, listing, Name(h)) == Some(UriOf(s3, h)))
      <==> forall m :: !Shadows(disk, items, up, m, Name(h))
  {
    var docs := Docs(SentItems(s3, disk, items, order, up));
    NameIsLast(h);
    RightInEveryOrderIff(docs, Name(h), UriOf(s3, h));
    OffersSome(s3, disk, items, order, up, n, i, h);
    forall m ensures Shadows(disk, items, up, m, Name(h)) <==> m in docs && !OffersOnly(docs, m, Name(h), UriOf(s3, h)) {
      if m in docs { OfferIsRightIff(s3, disk, items, order, up, h, m); }
    }
  }

  /** Of the uploaded assets of item `m` whose name ends with `name`, `g` at place `j` is the first. */
  ghost predicate FirstEnding(disk: Disk, items: map<string, File>, up: Fate, m: string, j: nat, g: string, name: string) {
    IsSent(disk, items, up, m, j, g) && EndsWithText(Name(g), name)
    && forall k: nat, f | k < j && IsSent(disk, items, up, m, k, f) :: !EndsWithText(Name(f), name)
  }

  /** What the search finds is the URI of the first uploaded asset of some item whose name ends that way,
      and what is fetched is what the object store holds under its name. */
  lemma FetchedIs(
    s3: S3, disk: Disk, bucket: string, objects: Objects, items: map<string, File>, order: seq<string>, up: Fate,
    h: string, user: Path, later: Disk, listing: seq<string>) returns (m: string, j: nat, g: string)
    requires Lists(order, items) && AllShaped(items) && NoneOnS3(items) && '/' !in s3.bucket
    requires IsFile(disk, h)
    requires Enumerates(listing, Docs(SentItems(s3, disk, items, order, up)).Keys)
    requires FirstOver(Docs(SentItems(s3, disk, items, order, up)), listing, Name(h)).Some?
    ensures FirstEnding(disk, items, up, m, j, g, Name(h))
    ensures FirstOver(Docs(SentItems(s3, disk, items, order, up)), listing, Name(h)) == Some(UriOf(s3, g))
    ensures Fetched(Docs(SentItems(s3, disk, items, order, up)), listing, bucket, Stored(s3, disk, objects, AllAssets(items, order, up)), later, user,
                    LinkOf(user, UriOf(s3, h))) == Held(s3, disk, objects, items, order, up, bucket, Name(g))
  {
    var docs := Docs(SentItems(s3, disk, items, order, up));
    NameIsLast(h);
    UriIs(s3, h);
    LastAfterSlash(UriFront(s3), Name(h));
    m := FirstOverFrom(docs, listing, Name(h));
    j, g := OfferIs(s3, disk, items, order, up, m, Name(h));
    KeyOfUri(s3, g);
    BucketHolds(s3, disk, bucket, objects, items, order, up, m, j, g);
  }

  /** When item `m` is listed first, it decides. */
  lemma ServedBy(
    s3: S3, disk: Disk, bucket: string, objects: Objects, items: map<string, File>, order: seq<string>, up: Fate,
    h: string, m: string, j: nat, g: string, user: Path, later: Disk, listing: seq<string>)
    requires Lists(order, items) && AllShaped(items) && NoneOnS3(items) && '/' !in s3.bucket
    requires IsFile(disk, h) && FirstEnding(disk, items, up, m, j, g, Name(h))
    requires Enumerates(listing, Docs(SentItems(s3, disk, items, order, up)).Keys) && listing != [] && listing[0] == m
    ensures Fetched(Docs(SentItems(s3, disk, items, order, up)), listing, bucket, Stored(s3, disk, objects, AllAssets(items, order, up)), later, user,
                    LinkOf(user, UriOf(s3, h))) == Held(s3, disk, objects, items, order, up, bucket, Name(g))
  {
    var docs := Docs(SentItems(s3, disk, items, order, up));
    NameIsLast(h);
    MatchesIff(s3, disk, items, order, up, m, j, g, Name(h));
    FirstMatchMatches(Hrefs(docs[m]), Name(h));
    var k, f := OfferIs(s3, disk, items, order, up, m, Name(h));
    assert k == j && f == g;
    var n, l, e := FetchedIs(s3, disk, bucket, objects, items, order, up, h, user, later, listing);
    UriTellsName(s3, e, g);
  }

  lemma ServedFrom(
    s3: S3, disk: Disk, bucket: string, objects: Objects, items: map<string, File>, order: seq<string>, up: Fate,
    n: string, i: nat, h: string, user: Path, later: Disk, listing: seq<string>) returns (m: string, j: nat, g: string)
    requires Lists(order, items) && AllShaped(items) && NoneOnS3(items) && '/' !in s3.bucket && IsSent(disk, items, up, n, i, h)
    requires Enumerates(listing, Docs(SentItems(s3, disk, items, order, up)).Keys)
    ensures FirstEnding(disk, items, up, m, j, g, Name(h))
    ensures Fetched(Docs(SentItems(s3, disk, items, order, up)), listing, bucket, Stored(s3, disk, objects, AllAssets(items, order, up)), later, user,
                    LinkOf(user, UriOf(s3, h))) == Held(s3, disk, objects, items, order, up, bucket, Name(g))
  {
    OffersSome(s3, disk, items, order, up, n, i, h);
    FirstOverSome(Docs(SentItems(s3, disk, items, order, up)), listing, Name(h), n);
    m, j, g := FetchedIs(s3, disk, bucket, objects, items, order, up, h, user, later, listing);
  }

  /** The link of an uploaded asset gets its bytes in every order of the listing exactly when, in every
      item, the first uploaded asset whose name ends with its name has a name under which the API's bucket
      holds those bytes. */
  lemma DeliveredIff(
    s3: S3, disk: Disk, bucket: string, objects: Objects, items: map<string, File>, order: seq<string>, up: Fate,
    n: string, i: nat, h: string, user: Path, later: Disk)
    requires Lists(order, items) && AllShaped(items) && NoneOnS3(items) && '/' !in s3.bucket
    requires IsSent(disk, items, up, n, i, h)
    ensures var docs, store := Docs(SentItems(s3, disk, items, order, up)), Stored(s3, disk, objects, AllAssets(items, order, up));
      (forall listing | Enumerates(listing, docs.Keys) ::
        Fetched(docs, listing, bucket, store, later, user, LinkOf(user, UriOf(s3, h))) == Some(disk.files[At(disk, h)]))
      <==> forall m, j: nat, g | FirstEnding(disk, items, up, m, j, g, Name(h)) ::
        Held(s3, disk, objects, items, order, up, bucket, Name(g)) == Some(disk.files[At(disk, h)])
  {
    var docs, store := Docs(SentItems(s3, disk, items, order, up)), Stored(s3, disk, objects, AllAssets(items, order, up));
    var file := Some(disk.files[At(disk, h)]);
    if forall listing | Enumerates(listing, docs.Keys) :: Fetched(docs, listing, bucket, store, later, user, LinkOf(user, UriOf(s3, h))) == file {
      forall m, j: nat, g | FirstEnding(disk, items, up, m, j, g, Name(h)) ensures Held(s3, disk, objects, items, order, up, bucket, Name(g)) == file {
        var listing := OrderFrom(docs.Keys, m);
        ServedBy(s3, disk, bucket, objects, items, order, up, h, m, j, g, user, later, listing);
      }
    }
    if forall m, j: nat, g | FirstEnding(disk, items, up, m, j, g, Name(h)) :: Held(s3, disk, objects, items, order, up, bucket, Name(g)) == file {
      forall listing | Enumerates(listing, docs.Keys) ensures Fetched(docs, listing, bucket, store, later, user, LinkOf(user, UriOf(s3, h))) == file {
        var m, j, g := ServedFrom(s3, disk, bucket, objects, items, order, up, n, i, h, user, later, listing);
      }
    }
  }

  /** An API without a bucket of its own reads the default one, and finds nothing of an upload to another. */
  lemma UnsetBucketFindsNothing(
    s3: S3, disk: Disk, items: map<string, File>, order: seq<string>, up: Fate,
    n: string, i: nat, h: string, user: Path, later: Disk, listing: seq<string>)
    requires Lists(order, items) && AllShaped(items) && NoneOnS3(items) && '/' !in s3.bucket && IsSent(disk, items, up, n, i, h)
    requires Enumerates(listing, Docs(SentItems(s3, disk, items, order, up)).Keys)
    requires s3.bucket != "eo-public"
    ensures Fetched(Docs(SentItems(s3, disk, items, order, up)), listing, ApiBucket(None), Stored(s3, disk, map[], AllAssets(items, order, up)),
                    later, user, LinkOf(user, UriOf(s3, h))) == None
  {
    var m, j, g := ServedFrom(s3, disk, ApiBucket(None), map[], items, order, up, n, i, h, user, later, listing);
  }

  // Two items with one file each, the name of one ending with that of the other, as xa.tif and a.tif.

  function OneAsset(h: string): File {
    Doc(Dict([("assets", Dict([("data", Dict([("href", Str(h))]))]))]))
  }

  lemma OneAssetHas(h: string)
    ensures Shaped(OneAsset(h).json) && Hrefs(OneAsset(h).json) == [h]
  {
    var asset := Dict([("href", Str(h))]);
    assert Get(asset.fields, "href") == Some(Str(h));
    assert AssetsOf(OneAsset(h).json) == [("data", asset)];
  }

  function TwoItems(p: string, g: string, q: string, h: string): map<string, File> {
    map[p := OneAsset(g), q := OneAsset(h)]
  }

  lemma TwoItemsHave(p: string, g: string, q: string, h: string)
    requires p != q && Globbed(p) && Globbed(q)
    ensures AllShaped(TwoItems(p, g, q, h)) && Lists([p, q], TwoItems(p, g, q, h))
    ensures forall n, i: nat, f :: HasAsset(TwoItems(p, g, q, h), n, i, f) <==> i == 0 && ((n == p && f == g) || (n == q && f == h))
  {
    OneAssetHas(g);
    OneAssetHas(h);
  }

  lemma AbsoluteName(disk: Disk, n: string)
    requires IsName(n) && [n] in disk.files
    ensures IsFile(disk, Absolute([n])) && At(disk, Absolute([n])) == [n] && Name(Absolute([n])) == n && !IsS3(Absolute([n]))
  {
    LastOfPath([n]);
    ComponentsOfAbsolute([n]);
    assert Absolute([n])[0] == '/';
  }

  lemma TwoItemsSent(disk: Disk, p: string, q: string, xa: string, a: string, up: Fate)
    requires (forall n, i :: up(n, i)) && p != q && Globbed(p) && Globbed(q)
    requires IsName(xa) && IsName(a) && xa != a && [xa] in disk.files && [a] in disk.files
    ensures var g, h := Absolute([xa]), Absolute([a]);
      var items := TwoItems(p, g, q, h);
      && AllShaped(items) && Lists([p, q], items) && NoneOnS3(items) && OneFilePerName(disk, items, up)
      && IsSent(disk, items, up, p, 0, g) && IsSent(disk, items, up, q, 0, h)
      && Name(g) == xa && Name(h) == a && At(disk, g) == [xa]
  {
    TwoItemsHave(p, Absolute([xa]), q, Absolute([a]));
    AbsoluteName(disk, xa);
    AbsoluteName(disk, a);
  }

  lemma SentDocs(s3: S3, disk: Disk, items: map<string, File>, order: seq<string>, up: Fate)
    requires Lists(order, items) && AllShaped(items)
    ensures Enumerates(order, Docs(SentItems(s3, disk, items, order, up)).Keys)
  {
  }

  /** With every upload a success, the link of file `a` gets the bytes of file `xa` when the item of the
      latter is listed first. */
  lemma ServedTheOther(
    s3: S3, disk: Disk, objects: Objects, p: string, q: string, xa: string, a: string, up: Fate, user: Path, later: Disk)
    requires '/' !in s3.bucket && (forall n, i :: up(n, i)) && p != q && Globbed(p) && Globbed(q)
    requires IsName(xa) && IsName(a) && xa != a && EndsWithText(xa, a) && [xa] in disk.files && [a] in disk.files
    ensures var items := TwoItems(p, Absolute([xa]), q, Absolute([a]));
      var after := SentItems(s3, disk, items, [p, q], up);
      && Lists([p, q], items) && Enumerates([p, q], Docs(after).Keys) && HasAsset(after, q, 0, UriOf(s3, Absolute([a])))
      && Fetched(Docs(after), [p, q], s3.bucket, Stored(s3, disk, objects, AllAssets(items, [p, q], up)), later, user,
                 LinkOf(user, UriOf(s3, Absolute([a])))) == Some(disk.files[[xa]])
  {
    var g, h := Absolute([xa]), Absolute([a]);
    var items := TwoItems(p, g, q, h);
    TwoItemsSent(disk, p, q, xa, a, up);
    SentDocs(s3, disk, items, [p, q], up);
    SentHref(s3, disk, items, [p, q], up, q, 0, h);
    ServedBy(s3, disk, s3.bucket, objects, items, [p, q], up, h, p, 0, g, user, later, [p, q]);
    KeptIsFile(disk, items, [p, q], up, p, 0, g);
  }

  // Files that stay local.

  lemma Assoc(slash: string, n: string, x: string, y: string)
    ensures slash + (n + (x + y)) == (slash + (n + x)) + y
  {
  }

  lemma {:induction false} AbsoluteConcat(p: Path, q: Path)
    ensures Absolute(p + q) == Absolute(p) + Absolute(q)
    decreases |p|
  {
    if p == [] {
      assert p + q == q && "" + Absolute(q) == Absolute(q);
    } else {
      AbsoluteConcat(p[1..], q);
      assert (p + q)[1..] == p[1..] + q;
      Assoc(['/'], p[0], Absolute(p[1..]), Absolute(q));
    }
  }

  /** Two strings alike up to their first slash. */
  lemma SameHead(a: string, x: string, b: string, y: string)
    requires '/' !in a && '/' !in b && x != "" && x[0] == '/' && (y == "" || y[0] == '/') && a + x == b + y
    ensures a == b && x == y
  {
    FindIs(a, '/', x);
    FindIs(b, '/', y);
    assert (a + x)[..|a|] == a && (b + y)[..|b|] == b && (a + x)[|a|..] == x && (b + y)[|b|..] == y;
  }

  lemma {:induction false} PrefixOfPath(user: Path, p: Path)
    requires AreNames(user) && AreNames(p) && StartsWith(Absolute(p), Absolute(user) + ['/'])
    ensures user < p
    decreases |user|
  {
    if user == [] {
    } else {
      var h, x := Absolute(p), Absolute(user) + ['/'];
      assert p != [];
      assert IsName(user[0]) && IsName(p[0]);
      var y, rest := Absolute(user[1..]) + ['/'], h[|x|..];
      Assoc(['/'], user[0], Absolute(user[1..]), ['/']);
      Assoc(['/'], user[0], y, rest);
      assert h == x + rest == ['/'] + (user[0] + (y + rest));
      assert h[1..] == user[0] + (y + rest) && h[1..] == p[0] + Absolute(p[1..]);
      SameHead(user[0], y + rest, p[0], Absolute(p[1..]));
      assert (y + rest)[..|y|] == y;
      PrefixOfPath(user[1..], p[1..]);
      assert user == [user[0]] + user[1..] && p == [p[0]] + p[1..];
    }
  }

  lemma RelativeReads(q: Path)
    requires AreNames(q) && q != []
    ensures var rel := q[0] + Absolute(q[1..]); rel != "" && rel[0] != '/' && Components(rel) == q
  {
    assert IsName(q[0]) by { assert q[0] in q; }
    SplitAbsolute(q[0], q[1..]);
    assert [q[0]] + q[1..] == q;
    KeepNames(q);
  }

  lemma PrefixCut(user: Path, rel: string)
    ensures var h := (Absolute(user) + ['/']) + rel; h[0] == '/' && LinkOf(user, h) == UserFile(rel)
  {
    var prefix := Absolute(user) + ['/'];
    var h := prefix + rel;
    assert h[0] == prefix[0] == '/';
    assert h[..|prefix|] == prefix && h[|prefix|..] == rel;
  }

  lemma InWorkspace(user: Path, q: Path)
    requires AreNames(q) && q != []
    ensures LinkOf(user, Absolute(user + q)).UserFile? && UserPath(user, LinkOf(user, Absolute(user + q)).path) == user + q
  {
    var rel := q[0] + Absolute(q[1..]);
    AbsoluteConcat(user, q);
    assert Absolute(user + q) == (Absolute(user) + ['/']) + rel;
    PrefixCut(user, rel);
    RelativeReads(q);
  }

  /** Where a link points: the proxy for the last segment of an S3 URI, a file of the user by its path in the
      workspace, and any other by its last segment. */
  lemma LinkIs(user: Path, h: string)
    ensures |h| >= 5 && h[..5] == "s3://" ==> LinkOf(user, h) == Proxy(LastSegment(h))
    ensures !(|h| >= 5 && h[..5] == "s3://") ==>
      && (forall rel :: h == Absolute(user) + "/" + rel ==> LinkOf(user, h) == UserFile(rel))
      && ((forall rel :: h != Absolute(user) + "/" + rel) ==> LinkOf(user, h) == UserFile(LastSegment(h)))
  {
    var prefix := Absolute(user) + ['/'];
    forall rel | h == Absolute(user) + "/" + rel ensures h[..|prefix|] == prefix && h[|prefix|..] == rel { }
    if StartsWith(h, prefix) { assert h == Absolute(user) + "/" + h[|prefix|..]; }
  }

  /** A path is looked up as it is when absolute, else from the working directory, and names a file only
      without a slash at its end. */
  lemma FilesAre(disk: Disk, p: Path, n: string)
    requires p != [] && AreNames(p) && IsName(n)
    ensures At(disk, Absolute(p)) == p && At(disk, n) == disk.cwd + [n]
    ensures forall user :: UserPath(user, Absolute(p)) == p && UserPath(user, n) == user + [n]
    ensures IsFile(disk, Absolute(p)) <==> p in disk.files
    ensures !IsFile(disk, Absolute(p) + "/") && !IsFile(disk, "")
  {
    ComponentsOfAbsolute(p);
    LastOfPath(p);
    SplitOne(n, '/');
    KeepNames([n]);
    LastAfterSlash(Absolute(p), "");
    assert Absolute(p) + (['/'] + "") == Absolute(p) + "/";
  }

  /** A local file's link leads back to the file exactly when the file is in the user's workspace. */
  lemma LocalLinkIff(user: Path, p: Path)
    requires user != [] && p != [] && AreNames(user) && AreNames(p)
    ensures LinkOf(user, Absolute(p)).UserFile?
    ensures UserPath(user, LinkOf(user, Absolute(p)).path) == p <==> user < p
  {
    if user < p {
      assert user + p[|user|..] == p;
      InWorkspace(user, p[|user|..]);
    } else {
      NotInWorkspace(user, p);
    }
  }

  lemma LinkElsewhere(user: Path, p: Path)
    requires p != [] && AreNames(user) && AreNames(p) && !(user < p)
    ensures LinkOf(user, Absolute(p)) == UserFile(LastSegment(Absolute(p)))
  {
    if StartsWith(Absolute(p), Absolute(user) + ['/']) { PrefixOfPath(user, p); }
    assert Absolute(p)[0] == '/';
  }

  lemma NameIsPath(user: Path, n: string)
    requires IsName(n)
    ensures UserPath(user, n) == user + [n]
  {
    SplitOne(n, '/');
    KeepNames([n]);
  }

  lemma NotInWorkspace(user: Path, p: Path)
    requires user != [] && p != [] && AreNames(user) && AreNames(p) && !(user < p)
    ensures LinkOf(user, Absolute(p)) == UserFile(LastSegment(Absolute(p)))
    ensures UserPath(user, LastSegment(Absolute(p))) != p
  {
    LinkElsewhere(user, p);
    LastOfPath(p);
    NameIsPath(user, LastSegment(Absolute(p)));
  }

  lemma LastOfPath(p: Path)
    requires p != [] && AreNames(p)
    ensures LastSegment(Absolute(p)) == p[|p| - 1] && IsName(p[|p| - 1])
  {
    assert "" + Absolute(p) == Absolute(p);
    SplitAbsolute("", p);
    assert IsName(p[|p| - 1]);
  }

  /** A file in the workspace of the user whose upload fails is served from there. */
  lemma DeliveredLocally(
    s3: S3, disk: Disk, items: map<string, File>, order: seq<string>, up: Fate,
    n: string, i: nat, p: Path, user: Path, listing: seq<string>, bucket: string, objects: Objects)
    requires Lists(order, items) && AllShaped(items) && AreNames(user) && AreNames(p) && user != [] && user < p
    requires HasAsset(items, n, i, Absolute(p)) && p in disk.files && !up(n, i)
    requires forall m | m in listing :: m in Docs(SentItems(s3, disk, items, order, up))
    ensures var after := SentItems(s3, disk, items, order, up);
      && HasAsset(after, n, i, Absolute(p))
      && Fetched(Docs(after), listing, bucket, objects, disk, user, LinkOf(user, Absolute(p))) == Some(disk.files[p])
  {
    SentHref(s3, disk, items, order, up, n, i, Absolute(p));
    LocalLinkIff(user, p);
  }

  lemma IsFileAt(disk: Disk, p: Path)
    requires p != [] && AreNames(p) && p in disk.files
    ensures IsFile(disk, Absolute(p)) && At(disk, Absolute(p)) == p
  {
    LastOfPath(p);
    ComponentsOfAbsolute(p);
  }

  /** An asset in the workspace of the user is delivered exactly when its upload failed or the API's bucket
      has its file. */
  lemma AssetDelivered(
    s3: S3, disk: Disk, bucket: string, objects: Objects, items: map<string, File>, order: seq<string>, up: Fate,
    n: string, i: nat, p: Path, user: Path, listing: seq<string>)
    requires Lists(order, items) && AllShaped(items) && NoneOnS3(items) && Apart(disk, items, up) && '/' !in s3.bucket
    requires user != [] && user < p && AreNames(p) && HasAsset(items, n, i, Absolute(p)) && p in disk.files
    requires Enumerates(listing, Docs(SentItems(s3, disk, items, order, up)).Keys)
    ensures var after := SentItems(s3, disk, items, order, up);
      && n in after && after[n].Doc? && i < |Hrefs(after[n].json)|
      && (Fetched(Docs(after), listing, bucket, Stored(s3, disk, objects, AllAssets(items, order, up)), disk, user,
                  LinkOf(user, Hrefs(after[n].json)[i])) == Some(disk.files[p])
        <==> (up(n, i) ==> HasFile(s3, objects, bucket, Absolute(p), disk.files[p])))
  {
    IsFileAt(disk, p);
    if up(n, i) {
      assert IsSent(disk, items, up, n, i, Absolute(p));
      DeliveredFromS3(s3, disk, bucket, objects, items, order, up, n, i, Absolute(p), user, disk, listing);
    } else {
      assert AreNames(user) by { assert forall k | 0 <= k < |user| :: user[k] == p[k]; }
      DeliveredLocally(s3, disk, items, order, up, n, i, p, user, listing, bucket, Stored(s3, disk, objects, AllAssets(items, order, up)));
    }
  }

  // The table of links.

  ghost predicate AllHaveIds(items: map<string, File>) {
    forall n | n in items && Globbed(n) && items[n].Doc? :: HasId(items[n].json)
  }

  /** An href that is the absolute path of a file in the workspace of the user. */
  predicate IsLocal(disk: Disk, user: Path, h: string) {
    var p := Components(h);
    h == Absolute(p) && p in disk.files && user < p
  }

  ghost predicate AllLocal(disk: Disk, items: map<string, File>, user: Path) {
    forall n, i: nat, h | HasAsset(items, n, i, h) :: IsLocal(disk, user, h)
  }

  /** The upload leaves ids, and the names and number of assets, as they were. */
  lemma KeysStay(s3: S3, disk: Disk, items: map<string, File>, order: seq<string>, up: Fate, n: string, i: nat)
    requires Lists(order, items) && AllShaped(items) && AllHaveIds(items) && n in Docs(items) && i < |Hrefs(items[n].json)|
    ensures var docs := Docs(SentItems(s3, disk, items, order, up));
      n in docs && HasId(docs[n]) && |Hrefs(docs[n])| == |Hrefs(items[n].json)| && KeyAt(docs[n], i) == KeyAt(items[n].json, i)
  {
    var item := items[n].json;
    var hs := SentAll(s3, disk, Hrefs(item), n, up);
    SetHrefsReads(item, hs);
    assert Get(SetHrefs(item, hs).fields, "id") == Get(item.fields, "id");
    assert SameButHref(AssetsOf(item)[i], AssetsOf(SetHrefs(item, hs))[i]);
  }

  lemma DocsListed(s3: S3, disk: Disk, items: map<string, File>, order: seq<string>, up: Fate, sorted: seq<string>)
    requires Lists(order, items) && AllShaped(items) && AllHaveIds(items)
    requires Enumerates(sorted, Docs(SentItems(s3, disk, items, order, up)).Keys)
    ensures Listed(Docs(SentItems(s3, disk, items, order, up)), sorted)
  {
    var docs := Docs(SentItems(s3, disk, items, order, up));
    forall n | n in sorted ensures n in docs && Shaped(docs[n]) && HasId(docs[n]) {
      var item := items[n].json;
      var hs := SentAll(s3, disk, Hrefs(item), n, up);
      SetHrefsReads(item, hs);
      assert Get(SetHrefs(item, hs).fields, "id") == Get(item.fields, "id");
    }
  }

  /** An asset whose key no other link has: the link handed out under its key gets its file, exactly when
      its upload failed or the API's bucket has it. */
  lemma AssetHandedOut(
    s3: S3, disk: Disk, bucket: string, objects: Objects, items: map<string, File>, order: seq<string>, up: Fate,
    n: string, i: nat, p: Path, user: Path, sorted: seq<string>, listing: seq<string>)
    requires Lists(order, items) && AllShaped(items) && AllHaveIds(items) && NoneOnS3(items) && Apart(disk, items, up) && '/' !in s3.bucket
    requires user != [] && user < p && AreNames(p) && HasAsset(items, n, i, Absolute(p)) && p in disk.files
    requires Enumerates(sorted, Docs(SentItems(s3, disk, items, order, up)).Keys)
    requires Enumerates(listing, Docs(SentItems(s3, disk, items, order, up)).Keys)
    requires n in Docs(SentItems(s3, disk, items, order, up)) && i < |Hrefs(Docs(SentItems(s3, disk, items, order, up))[n])|
    requires Listed(Docs(SentItems(s3, disk, items, order, up)), sorted)
    requires OwnKey(user, Docs(SentItems(s3, disk, items, order, up)), sorted, n, i)
    ensures var docs := Docs(SentItems(s3, disk, items, order, up));
      var link := Get(Added(AllEntries(user, docs, sorted)), KeyAt(items[n].json, i));
      && link.Some?
      && (Fetched(docs, listing, bucket, Stored(s3, disk, objects, AllAssets(items, order, up)), disk, user, link.value) == Some(disk.files[p])
        <==> (up(n, i) ==> HasFile(s3, objects, bucket, Absolute(p), disk.files[p])))
  {
    var docs := Docs(SentItems(s3, disk, items, order, up));
    KeysStay(s3, disk, items, order, up, n, i);
    OwnLinkHandedOut(user, docs, sorted, n, i);
    AssetDelivered(s3, disk, bucket, objects, items, order, up, n, i, p, user, listing);
  }

  /** Every link of the table: what it gets is the file that an asset of its key named before the upload,
      exactly when the upload of that asset failed or the API's bucket has the file. */
  lemma TableDelivers(
    s3: S3, disk: Disk, bucket: string, objects: Objects, items: map<string, File>, order: seq<string>, up: Fate,
    user: Path, sorted: seq<string>, listing: seq<string>, key: string) returns (n: string, i: nat, h: string)
    requires Lists(order, items) && AllShaped(items) && AllHaveIds(items) && NoneOnS3(items) && Apart(disk, items, up) && '/' !in s3.bucket
    requires user != [] && AllLocal(disk, items, user)
    requires Enumerates(sorted, Docs(SentItems(s3, disk, items, order, up)).Keys)
    requires Enumerates(listing, Docs(SentItems(s3, disk, items, order, up)).Keys)
    requires Listed(Docs(SentItems(s3, disk, items, order, up)), sorted)
    requires Has(Added(AllEntries(user, Docs(SentItems(s3, disk, items, order, up)), sorted)), key)
    ensures HasAsset(items, n, i, h) && HasId(items[n].json) && KeyAt(items[n].json, i) == key && At(disk, h) in disk.files
    ensures var docs := Docs(SentItems(s3, disk, items, order, up));
      Fetched(docs, listing, bucket, Stored(s3, disk, objects, AllAssets(items, order, up)), disk, user,
              Get(Added(AllEntries(user, docs, sorted)), key).value) == Some(disk.files[At(disk, h)])
      <==> (up(n, i) ==> HasFile(s3, objects, bucket, h, disk.files[At(disk, h)]))
  {
    var after := SentItems(s3, disk, items, order, up);
    n, i := HandedOutFrom(user, Docs(after), sorted, key);
    assert HasAsset(after, n, i, Hrefs(after[n].json)[i]);
    h := WasHref(s3, disk, items, order, up, n, i, Hrefs(after[n].json)[i]);
    KeysStay(s3, disk, items, order, up, n, i);
    assert IsLocal(disk, user, h);
    ComponentsAreNames(h);
    IsFileAt(disk, Components(h));
    AssetDelivered(s3, disk, bucket, objects, items, order, up, n, i, Components(h), user, listing);
  }

  // A second pass.

  /** No file on disk is spelled like an upload URI. */
  ghost predicate NoTwin(s3: S3, disk: Disk) {
    forall h :: !IsFile(disk, UriOf(s3, h))
  }

  lemma SentTwice(s3: S3, disk: Disk, h: string, up: bool, again: bool)
    requires NoTwin(s3, disk)
    ensures Sent(s3, disk, Sent(s3, disk, h, up), again) == Sent(s3, disk, h, up || again)
  {
  }

  lemma SetTwice(item: Json, hs: seq<string>, gs: seq<string>)
    requires Walkable(item) && |hs| == |gs| == |Hrefs(item)|
    requires forall i | 0 <= i < |hs| :: hs[i] == Hrefs(item)[i] || gs[i] == hs[i]
    ensures Walkable(SetHrefs(item, hs)) && |Hrefs(SetHrefs(item, hs))| == |gs|
    ensures SetHrefs(SetHrefs(item, hs), gs) == SetHrefs(item, gs)
  {
    SetHrefsReads(item, hs);
    var assets := AssetsOf(item);
    var once := SetAll(assets, hs);
    AssetsOfWith(item, once);
    forall i | 0 <= i < |hs| ensures SetHref(once[i].1, gs[i]) == SetHref(assets[i].1, gs[i]) {
      SetHrefReads(assets[i].1, hs[i]);
    }
    assert SetAll(once, gs) == SetAll(assets, gs);
    if item.Dict? && Lookup(item.fields, "assets").Dict? {
      PutPut(item.fields, "assets", Dict(once), Dict(SetAll(assets, gs)));
    }
  }

  /** Two passes do what one does in which an upload succeeds when it does in either. */
  lemma TwoPassesAreOne(s3: S3, disk: Disk, items: map<string, File>, order: seq<string>, up: Fate, again: Fate, both: Fate)
    requires NoTwin(s3, disk) && Lists(order, items) && AllWalkable(items, order)
    requires forall n, i :: both(n, i) == (up(n, i) || again(n, i))
    ensures SentItems(s3, disk, SentItems(s3, disk, items, order, up), order, again) == SentItems(s3, disk, items, order, both)
  {
    forall n | n in order && items[n].Doc?
      ensures SentFile(s3, disk, n, SentFile(s3, disk, n, items[n], up), again) == SentFile(s3, disk, n, items[n], both)
    {
      var item := items[n].json;
      var h := Hrefs(item);
      var hs, gs := SentAll(s3, disk, h, n, up), SentAll(s3, disk, h, n, both);
      SetHrefsReads(item, hs);
      forall i | 0 <= i < |h| ensures Sent(s3, disk, hs[i], again(n, i)) == gs[i] && (hs[i] == h[i] || gs[i] == hs[i]) {
        SentTwice(s3, disk, h[i], up(n, i), again(n, i));
      }
      assert SentAll(s3, disk, hs, n, again) == gs;
      SetTwice(item, hs, gs);
    }
  }

  lemma {:induction false} NoRewrites(s3: S3, disk: Disk, assets: seq<(string, bool)>)
    requires forall a | a in assets :: !IsFile(disk, a.0)
    ensures Rewrites(s3, disk, assets) == 0 && forall objects :: Stored(s3, disk, objects, assets) == objects
    decreases |assets|
  {
    if assets != [] { NoRewrites(s3, disk, assets[..|assets| - 1]); }
  }

  /** After a pass in which every upload succeeded, another rewrites nothing, uploads nothing and
      counts nothing. */
  lemma SecondPassRewritesNothing(
    s3: S3, disk: Disk, items: map<string, File>, order: seq<string>, up: Fate, again: Fate, objects: Objects)
    requires NoTwin(s3, disk) && Lists(order, items) && AllShaped(items) && forall n, i :: up(n, i)
    ensures var after := SentItems(s3, disk, items, order, up);
      && Lists(order, after)
      && SentItems(s3, disk, after, order, again) == after
      && Rewrites(s3, disk, AllAssets(after, order, again)) == 0
      && Stored(s3, disk, objects, AllAssets(after, order, again)) == objects
  {
    var after := SentItems(s3, disk, items, order, up);
    TwoPassesAreOne(s3, disk, items, order, up, again, up);
    var assets := AllAssets(after, order, again);
    forall a | a in assets ensures !IsFile(disk, a.0) {
      var n, i := AssetFrom(after, order, again, a);
      assert HasAsset(after, n, i, a.0);
      var h := WasHref(s3, disk, items, order, up, n, i, a.0);
    }
    NoRewrites(s3, disk, assets);
  }
}
