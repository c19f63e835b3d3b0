/** Delivery of results: the executor's upload of item assets, the links the API hands out, and the
    endpoints that resolve them. */
module Delivery {
  import opened Options
  import opened Json
  import opened Paths
  import opened Items

  // The upload.

  /** The bucket and the identifiers in the environment of the executor. */
  datatype S3 = S3(bucket: string, user: string, job: string)

  /** The object store, by bucket and key. */
  type Objects = map<(string, string), File>

  /** The files the executor and the API see, and the directory relative paths start from. */
  datatype Disk = Disk(files: map<Path, File>, cwd: Path)

  /** Whether the upload of an asset, by item file and position, succeeds. */
  type Fate = (string, nat) -> bool

  function Key(s3: S3, name: string): string {
    s3.user + (['/'] + (s3.job + (['/'] + name)))
  }

  function Uri(bucket: string, key: string): string {
    "s3://" + (bucket + (['/'] + key))
  }

  function UriOf(s3: S3, h: string): string {
    Uri(s3.bucket, Key(s3, Name(h)))
  }

  function At(disk: Disk, h: string): Path {
    if h != "" && h[0] == '/' then Components(h) else disk.cwd + Components(h)
  }

  /** os.path.isfile. */
  predicate IsFile(disk: Disk, h: string) {
    h != "" && LastSegment(h) != "" && LastSegment(h) != "." && At(disk, h) in disk.files
  }

  predicate Goes(disk: Disk, h: string, up: bool) {
    IsFile(disk, h) && up
  }

  /** An href after the upload of its asset. */
  function Sent(s3: S3, disk: Disk, h: string, up: bool): string {
    if Goes(disk, h, up) then UriOf(s3, h) else h
  }

  function SentAll(s3: S3, disk: Disk, hs: seq<string>, n: string, up: Fate): seq<string> {
    seq(|hs|, i requires 0 <= i < |hs| => Sent(s3, disk, hs[i], up(n, i)))
  }

  function SentFile(s3: S3, disk: Disk, n: string, file: File, up: Fate): File {
    match file
    case Doc(item) => Doc(SetHrefs(item, SentAll(s3, disk, Hrefs(item), n, up)))
    case Raw(_) => file
  }

  /** The names `glob` finds for `*.json`. */
  predicate Globbed(n: string) {
    |n| > 5 && n[|n| - 5..] == ".json" && n[0] != '.'
  }

  /** The item files when those among `done` have been uploaded. */
  function SentItems(s3: S3, disk: Disk, items: map<string, File>, done: seq<string>, up: Fate): map<string, File> {
    map n | n in items :: if n in done then SentFile(s3, disk, n, items[n], up) else items[n]
  }

  /** A listing of the item files, in some order. */
  ghost predicate Lists(order: seq<string>, items: map<string, File>) {
    && (forall n :: n in order <==> n in items && Globbed(n))
    && forall i, j | 0 <= i < j < |order| :: order[i] != order[j]
  }

  /** The assets of an item file: each href and whether its upload succeeds. */
  function Assets(n: string, file: File, up: Fate): seq<(string, bool)> {
    match file
    case Doc(item) =>
      var hs := Hrefs(item);
      seq(|hs|, i requires 0 <= i < |hs| => (hs[i], up(n, i)))
    case Raw(_) => []
  }

  /** The assets of the listed files, in the order of the upload. */
  function AllAssets(items: map<string, File>, order: seq<string>, up: Fate): seq<(string, bool)>
    requires forall n | n in order :: n in items
  {
    if order == [] then []
    else
      var n := order[|order| - 1];
      assert n in order;
      AllAssets(items, order[..|order| - 1], up) + Assets(n, items[n], up)
  }

  /** The object store after the given uploads. */
  function Stored(s3: S3, disk: Disk, objects: Objects, assets: seq<(string, bool)>): Objects {
    if assets == [] then objects
    else
      var before := Stored(s3, disk, objects, assets[..|assets| - 1]);
      var (h, up) := assets[|assets| - 1];
      if Goes(disk, h, up) then before[(s3.bucket, Key(s3, Name(h))) := disk.files[At(disk, h)]] else before
  }

  /** How many hrefs change. */
  function Rewrites(s3: S3, disk: Disk, assets: seq<(string, bool)>): nat {
    if assets == [] then 0
    else
      var (h, up) := assets[|assets| - 1];
      Rewrites(s3, disk, assets[..|assets| - 1]) + if Sent(s3, disk, h, up) != h then 1 else 0
  }

  lemma StoredNext(s3: S3, disk: Disk, was: Objects, log: seq<(string, bool)>, h: string, up: bool)
    ensures var before := Stored(s3, disk, was, log);
      Stored(s3, disk, was, log + [(h, up)])
        == if Goes(disk, h, up) then before[(s3.bucket, Key(s3, Name(h))) := disk.files[At(disk, h)]] else before
    ensures Rewrites(s3, disk, log + [(h, up)]) == Rewrites(s3, disk, log) + if Sent(s3, disk, h, up) != h then 1 else 0
  {
    var longer := log + [(h, up)];
    assert longer[..|longer| - 1] == log && longer[|longer| - 1] == (h, up);
  }

  lemma TakeNext<T>(earlier: seq<T>, s: seq<T>, k: nat)
    requires k < |s|
    ensures earlier + s[..k + 1] == (earlier + s[..k]) + [s[k]]
  {
  }

  lemma TakeAll<T>(earlier: seq<T>, s: seq<T>)
    ensures earlier + s[..0] == earlier && earlier + s[..|s|] == earlier + s
  {
  }

  lemma SameAsset(assets: Fields<Json>, k: nat, asset: Json)
    requires k < |assets| && assets[k].1 == asset
    ensures assets[k := (assets[k].0, asset)] == assets
  {
  }

  ghost predicate AllWalkable(items: map<string, File>, names: seq<string>) {
    forall n | n in names && n in items && items[n].Doc? :: Walkable(items[n].json)
  }

  lemma SentNext(s3: S3, disk: Disk, items: map<string, File>, order: seq<string>, up: Fate, i: nat)
    requires i < |order| && order[i] in items
    ensures SentItems(s3, disk, items, order[..i + 1], up)
      == SentItems(s3, disk, items, order[..i], up)[order[i] := SentFile(s3, disk, order[i], items[order[i]], up)]
    ensures AllWalkable(items, order[..i + 1])
      <==> AllWalkable(items, order[..i]) && (items[order[i]].Doc? ==> Walkable(items[order[i]].json))
  {
    assert order[..i + 1] == order[..i] + [order[i]];
  }

  lemma NotYetSent(s3: S3, disk: Disk, items: map<string, File>, order: seq<string>, up: Fate, i: nat)
    requires Lists(order, items) && i < |order|
    ensures order[i] in items && SentItems(s3, disk, items, order[..i], up)[order[i]] == items[order[i]]
  {
    assert order[i] !in order[..i];
  }

  lemma AssetsNext(items: map<string, File>, order: seq<string>, up: Fate, i: nat)
    requires i < |order| && forall n | n in order :: n in items
    ensures AllAssets(items, order[..i + 1], up) == AllAssets(items, order[..i], up) + Assets(order[i], items[order[i]], up)
  {
    assert order[..i + 1][..i] == order[..i];
  }

  /** What the upload of an item does to each of its assets. */
  lemma ItemPlan(s3: S3, disk: Disk, n: string, item: Json, up: Fate) returns (hs: seq<string>, all: seq<(string, bool)>)
    ensures all == Assets(n, Doc(item), up) && |hs| == |all| == |AssetsOf(item)|
    ensures forall k | 0 <= k < |hs| :: all[k] == (HrefOf(AssetsOf(item)[k].1), up(n, k)) && hs[k] == Sent(s3, disk, all[k].0, all[k].1)
    ensures Doc(WithAssets(item, Partly(item, hs, |hs|))) == SentFile(s3, disk, n, Doc(item), up)
  {
    hs, all := SentAll(s3, disk, Hrefs(item), n, up), Assets(n, Doc(item), up);
    PartlyEnds(item, hs);
  }

  lemma NotWalkable(items: map<string, File>, names: seq<string>, n: string)
    requires n in names && n in items && items[n].Doc? && !Walkable(items[n].json)
    ensures !AllWalkable(items, names)
  {
  }

  /** The key and the URI of an upload, in full. */
  lemma UriSpelledOut(s3: S3, h: string)
    requires LastSegment(h) != "" && LastSegment(h) != "."
    ensures Key(s3, Name(h)) == s3.user + "/" + s3.job + "/" + LastSegment(h)
    ensures UriOf(s3, h) == "s3://" + s3.bucket + "/" + (s3.user + "/" + s3.job + "/" + LastSegment(h))
  {
    NameIsLast(h);
    var n := LastSegment(h);
    assert s3.user + (['/'] + (s3.job + (['/'] + n))) == s3.user + "/" + s3.job + "/" + n;
    assert "s3://" + (s3.bucket + (['/'] + Key(s3, n))) == "s3://" + s3.bucket + "/" + Key(s3, n);
  }

  class ItemsDirectory {
    var items: map<string, File>
    var objects: Objects

    constructor (items: map<string, File>, objects: Objects)
      ensures this.items == items && this.objects == objects
    {
      this.items, this.objects := items, objects;
    }

    /** upload_to_s3 on a file that is there. */
    method UploadToS3(s3: Option<S3>, disk: Disk, path: string, up: bool) returns (uri: string)
      requires IsFile(disk, path)
      modifies this`objects
      ensures s3.None? ==> uri == path && objects == old(objects)
      ensures s3.Some? ==> uri == Sent(s3.value, disk, path, up)
      ensures s3.Some? && !up ==> uri == path && objects == old(objects)
      ensures s3.Some? && up ==>
        var key := s3.value.user + "/" + s3.value.job + "/" + LastSegment(path);
        uri == "s3://" + s3.value.bucket + "/" + key && objects == old(objects)[(s3.value.bucket, key) := disk.files[At(disk, path)]]
      ensures s3.Some? ==> objects == if up then old(objects)[(s3.value.bucket, Key(s3.value, Name(path))) := disk.files[At(disk, path)]] else old(objects)
    {
      if s3 == None { return path; }
      if up {
        UriSpelledOut(s3.value, path);
        var key := Key(s3.value, Name(path));
        objects := objects[(s3.value.bucket, key) := disk.files[At(disk, path)]];
        return Uri(s3.value.bucket, key);
      }
      return path;
    }

    /** upload_stac_item_assets. None when a listed item cannot be walked. */
    method UploadStacItemAssets(order: seq<string>, s3: Option<S3>, disk: Disk, up: Fate) returns (r: Option<nat>)
      requires Lists(order, items)
      modifies this
      ensures s3.None? ==> r == Some(0) && items == old(items) && objects == old(objects)
      ensures s3.Some? ==> (r.Some? <==> AllWalkable(old(items), order))
      ensures s3.Some? && r.Some? ==>
        && items == SentItems(s3.value, disk, old(items), order, up)
        && objects == Stored(s3.value, disk, old(objects), AllAssets(old(items), order, up))
        && r.value == Rewrites(s3.value, disk, AllAssets(old(items), order, up))
    {
      if s3 == None { return Some(0); }
      var uploaded := 0;
      ghost var log := [];
      var i := 0;
      assert SentItems(s3.value, disk, items, [], up) == items;
      while i < |order|
        invariant 0 <= i <= |order|
        invariant AllWalkable(old(items), order[..i])
        invariant items == SentItems(s3.value, disk, old(items), order[..i], up)
        invariant log == AllAssets(old(items), order[..i], up)
        invariant objects == Stored(s3.value, disk, old(objects), log)
        invariant uploaded == Rewrites(s3.value, disk, log)
      {
        var n := order[i];
        SentNext(s3.value, disk, old(items), order, up, i);
        AssetsNext(old(items), order, up, i);
        NotYetSent(s3.value, disk, old(items), order, up, i);
        var count;
        count, log := UploadItem(n, s3.value, disk, up, log, old(objects));
        if count == None {
          NotWalkable(old(items), order, n);
          return None;
        }
        uploaded := uploaded + count.value;
        i := i + 1;
      }
      assert order[..i] == order;
      return Some(uploaded);
    }

    /** One turn of the outer loop: an unreadable file is passed over, a changed one written back. */
    method UploadItem(n: string, s3: S3, disk: Disk, up: Fate, ghost earlier: seq<(string, bool)>, ghost was: Objects)
      returns (uploaded: Option<nat>, ghost log: seq<(string, bool)>)
      requires n in items && objects == Stored(s3, disk, was, earlier)
      modifies this
      ensures uploaded.Some? <==> (old(items[n]).Doc? ==> Walkable(old(items[n]).json))
      ensures uploaded.Some? ==>
        && items == old(items)[n := SentFile(s3, disk, n, old(items[n]), up)]
        && log == earlier + Assets(n, old(items[n]), up)
        && objects == Stored(s3, disk, was, log)
        && Rewrites(s3, disk, log) == Rewrites(s3, disk, earlier) + uploaded.value
    {
      if items[n].Raw? {
        assert earlier + Assets(n, items[n], up) == earlier;
        return Some(0), earlier;
      }
      var item := items[n].json;
      if !Walkable(item) { return None, earlier; }
      ghost var hs, all := ItemPlan(s3, disk, n, item, up);
      var assets, changed, count := UploadAssets(n, item, s3, disk, up, hs, all, earlier, was);
      if changed { items := items[n := Doc(WithAssets(item, assets))]; } else { WithSame(item); }
      return Some(count), earlier + all;
    }

    /** The loop over the assets of one item. */
    method UploadAssets(n: string, item: Json, s3: S3, disk: Disk, up: Fate, ghost hs: seq<string>, ghost all: seq<(string, bool)>,
                        ghost earlier: seq<(string, bool)>, ghost was: Objects)
      returns (assets: Fields<Json>, changed: bool, uploaded: nat)
      requires |hs| == |all| == |AssetsOf(item)| && objects == Stored(s3, disk, was, earlier)
      requires forall k | 0 <= k < |hs| :: all[k] == (HrefOf(AssetsOf(item)[k].1), up(n, k)) && hs[k] == Sent(s3, disk, all[k].0, all[k].1)
      modifies this`objects
      ensures assets == Partly(item, hs, |hs|) && (!changed ==> assets == AssetsOf(item))
      ensures objects == Stored(s3, disk, was, earlier + all)
      ensures Rewrites(s3, disk, earlier + all) == Rewrites(s3, disk, earlier) + uploaded
    {
      assets, changed, uploaded := AssetsOf(item), false, 0;
      var size, k := |assets|, 0;
      PartlyEnds(item, hs);
      TakeAll(earlier, all);
      while k < size
        invariant 0 <= k <= size == |hs|
        invariant assets == Partly(item, hs, k)
        invariant !changed ==> assets == AssetsOf(item)
        invariant objects == Stored(s3, disk, was, earlier + all[..k])
        invariant Rewrites(s3, disk, earlier + all[..k]) == Rewrites(s3, disk, earlier) + uploaded
      {
        var rewritten;
        assets, rewritten := UploadNext(n, item, s3, disk, up, assets, k, hs, all, earlier, was);
        if rewritten {
          changed := true;
          uploaded := uploaded + 1;
        }
        k := k + 1;
      }
    }

    /** One turn of that loop. */
    method UploadNext(n: string, item: Json, s3: S3, disk: Disk, up: Fate, assets: Fields<Json>, k: nat, ghost hs: seq<string>,
                      ghost all: seq<(string, bool)>, ghost earlier: seq<(string, bool)>, ghost was: Objects)
      returns (next: Fields<Json>, rewritten: bool)
      requires |hs| == |all| == |AssetsOf(item)| && k < |hs| && assets == Partly(item, hs, k)
      requires all[k] == (HrefOf(AssetsOf(item)[k].1), up(n, k)) && hs[k] == Sent(s3, disk, all[k].0, all[k].1)
      requires objects == Stored(s3, disk, was, earlier + all[..k])
      modifies this`objects
      ensures next == Partly(item, hs, k + 1) && (!rewritten ==> next == assets)
      ensures objects == Stored(s3, disk, was, earlier + all[..k + 1])
      ensures Rewrites(s3, disk, earlier + all[..k + 1]) == Rewrites(s3, disk, earlier + all[..k]) + if rewritten then 1 else 0
    {
      PartlyStep(item, hs, k);
      TakeNext(earlier, all, k);
      var asset;
      rewritten, asset := UploadAsset(assets[k].1, s3, disk, up(n, k), earlier + all[..k], was);
      if rewritten {
        next := assets[k := (assets[k].0, asset)];
      } else {
        SameAsset(assets, k, asset);
        next := assets;
      }
    }

    /** The upload of one asset. */
    method UploadAsset(asset: Json, s3: S3, disk: Disk, up: bool, ghost log: seq<(string, bool)>, ghost was: Objects)
      returns (rewritten: bool, after: Json)
      requires objects == Stored(s3, disk, was, log)
      modifies this`objects
      ensures after == SetHref(asset, Sent(s3, disk, HrefOf(asset), up)) && (!rewritten ==> after == asset)
      ensures objects == Stored(s3, disk, was, log + [(HrefOf(asset), up)])
      ensures Rewrites(s3, disk, log + [(HrefOf(asset), up)]) == Rewrites(s3, disk, log) + if rewritten then 1 else 0
    {
      var href := HrefOf(asset);
      StoredNext(s3, disk, was, log, href, up);
      if href != "" && IsFile(disk, href) {
        var uri := UploadToS3(Some(s3), disk, href, up);
        if uri != href { return true, SetHref(asset, uri); }
      }
      return false, asset;
    }
  }
}
