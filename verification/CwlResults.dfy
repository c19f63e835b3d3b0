/** From a CWL tool's output to the bytes a user downloads. */
module CwlResults {
  import opened Options
  import opened Json
  import opened Paths
  import opened Items
  import opened Stac
  import opened Relocation
  import opened Delivery
  import opened Results
  import opened Delivered

  /** The item files of a STAC directory, by name. */
  function ItemFiles(t: Tree): map<string, File> {
    map n | n in ItemNames(t) && ["items", n] in t.files :: t.files[["items", n]]
  }

  /** The STAC directory at `base` is on the disk. */
  ghost predicate OnDisk(base: Path, t: Tree, disk: Disk) {
    forall p | p in t.files :: base + p in disk.files && disk.files[base + p] == t.files[p]
  }

  /** The restructured items can be read by everything downstream. */
  lemma ItemsAreShaped(base: Path, t: Tree, root: string, job: string)
    requires [root] in t.files && IsJson(root) && Works(t, root, job)
    ensures AllShaped(ItemFiles(Restructured(base, t, root, job)))
  {
    var placed := Placed(t, root, job);
    var items := ItemFiles(Restructured(base, t, root, job));
    forall n | n in items && Globbed(n) ensures items[n].Doc? && Shaped(items[n].json) {
      var q := ["items", n];
      assert q in placed.files.Keys + placed.dirs && q[1] in ItemNames(placed) && InItems(q);
      var item := placed.files[q].json;
      SetHrefsReads(item, LinkedAll(base, placed, Hrefs(item)));
    }
  }

  lemma ItemFileHas(t: Tree, q: Path, k: nat, h: string)
    requires InItems(q) && Globbed(q[1]) && q in t.files && t.files[q].Doc?
    requires k < |Hrefs(t.files[q].json)| && Hrefs(t.files[q].json)[k] == h
    ensures HasAsset(ItemFiles(t), q[1], k, h)
  {
    assert q == ["items", q[1]];
    assert q in t.files.Keys + t.dirs && q[1] in ItemNames(t);
  }

  /** Asset `k` of the tool's item `p` has a relative href that names `c`, a file that does not move and
      is no item, by the top directory and a name that does not start with a dot. */
  predicate LinksTo(t: Tree, root: string, job: string, p: Path, k: nat, c: Path) {
    && p in t.files && p != [] && t.files[p].Doc? && k < |Hrefs(t.files[p].json)|
    && InItems(Relocate(t, root, job, p)) && Globbed(Relocate(t, root, job, p)[1])
    && c in t.files && Relocate(t, root, job, c) == c && !InItems(c) && !DotFirst(c)
    && Naming(t, p, Hrefs(t.files[p].json)[k], c) && FromTop(p, Hrefs(t.files[p].json)[k], c)
  }

  /** Its href is the absolute path of that file in the item's new place. */
  lemma RestructuredAsset(base: Path, t: Tree, root: string, job: string, p: Path, k: nat, c: Path)
    requires base != [] && AreNames(base) && IsTree(t) && [root] in t.files && IsJson(root)
    requires Works(t, root, job) && NoClash(t, root, job) && LinksTo(t, root, job, p, k, c)
    ensures HasAsset(ItemFiles(Restructured(base, t, root, job)), Relocate(t, root, job, p)[1], k, Absolute(base + c))
    ensures c in Restructured(base, t, root, job).files && Restructured(base, t, root, job).files[c] == t.files[c]
    ensures AreNames(c)
  {
    var out, q := Restructured(base, t, root, job), Relocate(t, root, job, p);
    PlacedLinkFollowsIff(base, t, root, job, p, k, c);
    ItemFileHas(out, q, k, Absolute(base + c));
  }

  /** The root of the tool's STAC is what the API reads as the collection of the job. */
  lemma RootIsCollection(base: Path, t: Tree, root: string, job: string)
    requires [root] in t.files && IsJson(root) && NoClash(t, root, job)
    ensures var out := Restructured(base, t, root, job);
      [CollectionName(job)] in out.files && out.files[[CollectionName(job)]] == t.files[[root]]
  {
    ContentKept(base, t, root, job, [root]);
  }

  /** The tables the API can hand out for the restructured output. */
  function TableOf(out: Tree, user: Path, job: string, docs: map<string, Json>, sorted: seq<string>): Option<Table<string, Link>>
    requires Listed(docs, sorted)
  {
    var at := [CollectionName(job)];
    if at in out.files && out.files[at].Doc? then HandedOut(user, job, out.files[at].json, docs, sorted) else None
  }

  /** Nothing is handed out when the root the tool wrote is a catalog, or anything but a collection. */
  lemma OnlyCollectionsAreHandedOut(
    base: Path, t: Tree, root: string, job: string, user: Path, docs: map<string, Json>, sorted: seq<string>)
    requires [root] in t.files && IsJson(root) && NoClash(t, root, job) && Listed(docs, sorted)
    ensures TableOf(Restructured(base, t, root, job), user, job, docs, sorted).Some?
      <==> t.files[[root]].Doc? && t.files[[root]].json.Dict? && Get(t.files[[root]].json.fields, "type") == Some(Str("Collection"))
  {
    RootIsCollection(base, t, root, job);
  }

  /** An asset of an item that a CWL tool wrote with such an href: after the restructuring and an upload
      that may fail or succeed for each asset, its link gets the bytes the tool wrote exactly when the upload
      failed or the API's bucket has them; and when the tool's root is a collection without assets and no
      other link has its key, that is the link handed out under its key. */
  lemma CwlAssetDelivered(
    base: Path, t: Tree, root: string, job: string, p: Path, k: nat, c: Path,
    s3: S3, disk: Disk, bucket: string, objects: Objects, order: seq<string>, up: Fate, user: Path, sorted: seq<string>, listing: seq<string>)
    requires base != [] && AreNames(base) && IsTree(t) && [root] in t.files && IsJson(root)
    requires Works(t, root, job) && NoClash(t, root, job) && LinksTo(t, root, job, p, k, c)
    requires OnDisk(base, Restructured(base, t, root, job), disk) && user != [] && user < base
    requires var items := ItemFiles(Restructured(base, t, root, job));
      Lists(order, items) && AllHaveIds(items) && NoneOnS3(items) && Apart(disk, items, up) && '/' !in s3.bucket
      && Enumerates(sorted, Docs(SentItems(s3, disk, items, order, up)).Keys)
      && Enumerates(listing, Docs(SentItems(s3, disk, items, order, up)).Keys)
    ensures var items, n := ItemFiles(Restructured(base, t, root, job)), Relocate(t, root, job, p)[1];
      var docs := Docs(SentItems(s3, disk, items, order, up));
      var store := Stored(s3, disk, objects, AllAssets(items, order, up));
      && n in docs && k < |Hrefs(docs[n])| && Listed(docs, sorted)
      && (Fetched(docs, listing, bucket, store, disk, user, LinkAt(user, docs[n], k)) == Some(t.files[c])
        <==> (up(n, k) ==> HasFile(s3, objects, bucket, Absolute(base + c), t.files[c])))
      && (t.files[[root]].Doc? && IsCollection(t.files[[root]].json) && AssetsOf(t.files[[root]].json) == []
            && OwnKey(user, docs, sorted, n, k) ==>
          var table := TableOf(Restructured(base, t, root, job), user, job, docs, sorted);
          table.Some? && Get(table.value, KeyAt(docs[n], k)) == Some(LinkAt(user, docs[n], k)))
  {
    var items, n := ItemFiles(Restructured(base, t, root, job)), Relocate(t, root, job, p)[1];
    RestructuredAsset(base, t, root, job, p, k, c);
    ItemsAreShaped(base, t, root, job);
    AssetDelivered(s3, disk, bucket, objects, items, order, up, n, k, base + c, user, listing);
    DocsListed(s3, disk, items, order, up, sorted);
    RootIsCollection(base, t, root, job);
    var docs := Docs(SentItems(s3, disk, items, order, up));
    if OwnKey(user, docs, sorted, n, k) { OwnLinkHandedOut(user, docs, sorted, n, k); }
  }
}
