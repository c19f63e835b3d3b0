/** STAC items: the hrefs of their assets, read and written in place. */
module Items {
  import opened Json
  import opened Options

  /** A file: a JSON document, or bytes that do not parse as one. */
  datatype File = Doc(json: Json) | Raw(bytes: seq<bv8>)

  function AssetsOf(item: Json): Fields<Json> {
    if item.Dict? && Lookup(item.fields, "assets").Dict? then Lookup(item.fields, "assets").fields else []
  }

  /** The item can be walked: its assets, if any, are a dictionary of dictionaries. */
  predicate Walkable(item: Json) {
    && item.Dict?
    && (Has(item.fields, "assets") ==> Lookup(item.fields, "assets").Dict?)
    && forall i | 0 <= i < |AssetsOf(item)| :: AssetsOf(item)[i].1.Dict?
  }

  /** And every href is a string or absent. */
  predicate Shaped(item: Json) {
    && Walkable(item)
    && forall i | 0 <= i < |AssetsOf(item)| :: HrefIsText(AssetsOf(item)[i].1)
  }

  predicate HrefIsText(asset: Json)
    requires asset.Dict?
  {
    Has(asset.fields, "href") ==> Lookup(asset.fields, "href").Str?
  }

  /** `asset.get("href", "")`. */
  function HrefOf(asset: Json): string {
    if asset.Dict? && Lookup(asset.fields, "href").Str? then Lookup(asset.fields, "href").s else ""
  }

  function Hrefs(item: Json): (hs: seq<string>)
    ensures |hs| == |AssetsOf(item)|
  {
    var assets := AssetsOf(item);
    seq(|assets|, i requires 0 <= i < |assets| => HrefOf(assets[i].1))
  }

  /** Writes an href that differs from the one there. */
  function SetHref(asset: Json, h: string): Json {
    if asset.Dict? && HrefOf(asset) != h then Dict(Put(asset.fields, "href", Str(h))) else asset
  }

  function SetAll(assets: Fields<Json>, hs: seq<string>): Fields<Json>
    requires |hs| == |assets|
  {
    seq(|assets|, i requires 0 <= i < |assets| => (assets[i].0, SetHref(assets[i].1, hs[i])))
  }

  function WithAssets(item: Json, assets: Fields<Json>): Json {
    if item.Dict? && Lookup(item.fields, "assets").Dict? then Dict(Put(item.fields, "assets", Dict(assets))) else item
  }

  /** The item with the given hrefs. */
  function SetHrefs(item: Json, hs: seq<string>): Json
    requires |hs| == |Hrefs(item)|
  {
    WithAssets(item, SetAll(AssetsOf(item), hs))
  }

  lemma {:induction false} PutGet<V>(d: Fields<V>, key: string)
    requires Has(d, key)
    ensures Put(d, key, Get(d, key).value) == d
    decreases |d|
  {
    if d[0].0 != key { PutGet(d[1..], key); }
  }

  lemma SetHrefReads(asset: Json, h: string)
    ensures asset.Dict? ==> HrefOf(SetHref(asset, h)) == h
    ensures asset.Dict? <==> SetHref(asset, h).Dict?
    ensures asset.Dict? && HrefIsText(asset) ==> HrefIsText(SetHref(asset, h))
    ensures forall key | asset.Dict? && key != "href" :: Get(SetHref(asset, h).fields, key) == Get(asset.fields, key)
  {
    if asset.Dict? {
      GetPut(asset.fields, "href", Str(h), "href");
      forall key | key != "href" ensures Get(SetHref(asset, h).fields, key) == Get(asset.fields, key) {
        GetPut(asset.fields, "href", Str(h), key);
      }
    }
  }

  lemma AssetsOfWith(item: Json, assets: Fields<Json>)
    ensures item.Dict? <==> WithAssets(item, assets).Dict?
    ensures item.Dict? && Lookup(item.fields, "assets").Dict? ==> AssetsOf(WithAssets(item, assets)) == assets
    ensures item.Dict? && Has(item.fields, "assets") && Lookup(item.fields, "assets").Dict? ==>
      Lookup(WithAssets(item, assets).fields, "assets").Dict?
    ensures forall key | item.Dict? && key != "assets" :: Get(WithAssets(item, assets).fields, key) == Get(item.fields, key)
  {
    if item.Dict? && Lookup(item.fields, "assets").Dict? {
      GetPut(item.fields, "assets", Dict(assets), "assets");
      forall key | key != "assets" ensures Get(WithAssets(item, assets).fields, key) == Get(item.fields, key) {
        GetPut(item.fields, "assets", Dict(assets), key);
      }
    }
  }

  /** The hrefs of an item are its assets' fields of that name, "" where there is no text. */
  lemma HrefsAre(item: Json, assets: Fields<Json>, i: nat)
    requires item.Dict? && Get(item.fields, "assets") == Some(Dict(assets)) && i < |assets| && assets[i].1.Dict?
    ensures |Hrefs(item)| == |assets|
    ensures forall h :: Get(assets[i].1.fields, "href") == Some(Str(h)) ==> Hrefs(item)[i] == h
    ensures Get(assets[i].1.fields, "href") == None ==> Hrefs(item)[i] == ""
  {
  }

  /** Hrefs written are the hrefs read; nothing but hrefs changes. */
  lemma SetHrefsReads(item: Json, hs: seq<string>)
    requires Walkable(item) && |hs| == |Hrefs(item)|
    ensures Walkable(SetHrefs(item, hs)) && Hrefs(SetHrefs(item, hs)) == hs
    ensures Shaped(item) ==> Shaped(SetHrefs(item, hs))
    ensures forall key | key != "assets" :: Get(SetHrefs(item, hs).fields, key) == Get(item.fields, key)
    ensures forall i | 0 <= i < |hs| :: SameButHref(AssetsOf(item)[i], AssetsOf(SetHrefs(item, hs))[i])
  {
    var assets := AssetsOf(item);
    var after := SetAll(assets, hs);
    AssetsOfWith(item, after);
    assert AssetsOf(SetHrefs(item, hs)) == after;
    forall i | 0 <= i < |hs| ensures HrefOf(after[i].1) == hs[i] && SameButHref(assets[i], after[i]) {
      SetHrefReads(assets[i].1, hs[i]);
    }
    if Shaped(item) {
      forall i | 0 <= i < |hs| ensures HrefIsText(after[i].1) { SetHrefReads(assets[i].1, hs[i]); }
    }
  }

  ghost predicate SameButHref(a: (string, Json), b: (string, Json)) {
    a.0 == b.0 && a.1.Dict? && b.1.Dict? && forall key | key != "href" :: Get(b.1.fields, key) == Get(a.1.fields, key)
  }

  lemma WithSame(item: Json)
    ensures WithAssets(item, AssetsOf(item)) == item
  {
    if item.Dict? && Lookup(item.fields, "assets").Dict? {
      PutGet(item.fields, "assets");
    }
  }

  /** Writing the hrefs that are there changes nothing. */
  lemma SetSame(item: Json)
    ensures SetHrefs(item, Hrefs(item)) == item
  {
    assert SetAll(AssetsOf(item), Hrefs(item)) == AssetsOf(item);
    WithSame(item);
  }

  /** An item in the middle of a loop over its assets: the first `k` hrefs are written. */
  function Partly(item: Json, hs: seq<string>, k: nat): Fields<Json>
    requires |hs| == |Hrefs(item)| && k <= |hs|
  {
    SetAll(AssetsOf(item), hs[..k] + Hrefs(item)[k..])
  }

  lemma PartlyStep(item: Json, hs: seq<string>, k: nat)
    requires |hs| == |Hrefs(item)| && k < |hs|
    ensures Partly(item, hs, k)[k] == AssetsOf(item)[k]
    ensures Partly(item, hs, k + 1) == Partly(item, hs, k)[k := (AssetsOf(item)[k].0, SetHref(AssetsOf(item)[k].1, hs[k]))]
  {
    var before, after := Partly(item, hs, k), Partly(item, hs, k + 1);
    forall i | 0 <= i < |hs| && i != k ensures after[i] == before[i] { }
  }

  lemma PartlyEnds(item: Json, hs: seq<string>)
    requires |hs| == |Hrefs(item)|
    ensures Partly(item, hs, 0) == AssetsOf(item)
    ensures WithAssets(item, Partly(item, hs, |hs|)) == SetHrefs(item, hs)
  {
    assert hs[..0] + Hrefs(item)[0..] == Hrefs(item);
    assert hs[..|hs|] + Hrefs(item)[|hs|..] == hs;
  }
}
