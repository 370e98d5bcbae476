/**
 * Trimming a release record fetched by tag: the `author` entry is deleted
 * and every entry of the `assets` list is reduced to its `name` and
 * `browser_download_url`.
 */
module TagInfo {

  import opened Wrappers
  import opened Values

  /** The keys an asset entry keeps. */
  const AssetKeys: set<string> := {"name", "browser_download_url"}

  /**
   * One trimmed asset entry: a new object with the entry's `name` and
   * `browser_download_url`, each looked up with Python subscripting.
   */
  function MiniAsset(rel: Json): (r: Result<Json, Failure>)
    ensures r.Ok? <==> rel.JObj? && AssetKeys <= rel.fields.Keys
    ensures r.Ok? ==> r.value.JObj? && r.value.fields.Keys == AssetKeys
    ensures r.Ok? ==> forall k :: k in AssetKeys ==> r.value.fields[k] == rel.fields[k]
    ensures r.Err? ==> r.error == if !rel.JObj? then TypeError
                                  else if "name" !in rel.fields then KeyError("name")
                                  else KeyError("browser_download_url")
  {
    match Subscript(rel, "name")
    case Err(e) => Err(e)
    case Ok(name) =>
      match Subscript(rel, "browser_download_url")
      case Err(e) => Err(e)
      case Ok(url) => Ok(JObj(map["name" := name, "browser_download_url" := url]))
  }

  /**
   * The trimmed asset list: each entry trimmed, in order, or the failure of
   * the first entry that cannot be trimmed.
   */
  function TrimAssets(items: seq<Json>): (r: Result<seq<Json>, Failure>)
    ensures r.Ok? <==> forall i :: 0 <= i < |items| ==> MiniAsset(items[i]).Ok?
    ensures r.Ok? ==> |r.value| == |items| && forall i :: 0 <= i < |items| ==> MiniAsset(items[i]) == Ok(r.value[i])
    ensures r.Err? ==> exists i :: 0 <= i < |items| && MiniAsset(items[i]) == Err(r.error) &&
                                   forall j :: 0 <= j < i ==> MiniAsset(items[j]).Ok?
    decreases |items|
  {
    if items == [] then Ok([])
    else
      var init := items[..|items| - 1];
      assert forall i :: 0 <= i < |init| ==> init[i] == items[i];
      match TrimAssets(init)
      case Err(e) => Err(e)
      case Ok(done) =>
        match MiniAsset(items[|items| - 1])
        case Err(e) => Err(e)
        case Ok(a) => Ok(done + [a])
  }

  /**
   * What `for rel in v` visits, for the values the loop either runs over or
   * fails on at once: the items of a list, the one-character strings of a
   * string, nothing for an empty object. A non-empty object yields its keys,
   * which are strings, so the first `rel["name"]` already raises TypeError;
   * a scalar is not iterable.
   */
  function Elements(v: Json): (r: Result<seq<Json>, Failure>)
    ensures v.JArr? ==> r == Ok(v.items)
    ensures v.JStr? ==> r.Ok? && |r.value| == |v.s| && forall i :: 0 <= i < |v.s| ==> r.value[i] == JStr([v.s[i]])
    ensures v.JObj? ==> r == if v.fields == map[] then Ok([]) else Err(TypeError)
    ensures !v.JArr? && !v.JStr? && !v.JObj? ==> r == Err(TypeError)
  {
    match v
    case JArr(items) => Ok(items)
    case JStr(s) => Ok(seq(|s|, i requires 0 <= i < |s| => JStr([s[i]])))
    case JObj(fields) => if fields == map[] then Ok([]) else Err(TypeError)
    case _ => Err(TypeError)
  }

  /**
   * The trimmed release record: `author` removed, `assets` replaced by its
   * trimmed entries, every other key untouched.
   */
  function TrimmedRelease(release: Json): (r: Result<map<string, Json>, Failure>)
    ensures r.Ok? <==> release.JObj? && "author" in release.fields && "assets" in release.fields &&
                       Elements(release.fields["assets"]).Ok? &&
                       TrimAssets(Elements(release.fields["assets"]).value).Ok?
    ensures r.Ok? ==> r.value.Keys == release.fields.Keys - {"author"}
    ensures r.Ok? ==> forall k :: k in r.value && k != "assets" ==> r.value[k] == release.fields[k]
    ensures r.Ok? ==> r.value["assets"] == JArr(TrimAssets(Elements(release.fields["assets"]).value).value)
  {
    if !release.JObj? then Err(TypeError)
    else if "author" !in release.fields then Err(KeyError("author"))
    else
      var kept := release.fields - {"author"};
      if "assets" !in kept then Err(KeyError("assets"))
      else
        match Elements(kept["assets"])
        case Err(e) => Err(e)
        case Ok(items) =>
          match TrimAssets(items)
          case Err(e) => Err(e)
          case Ok(mini) => Ok(kept["assets" := JArr(mini)])
  }

  /** The first entry that cannot be trimmed decides the failure of the whole list. */
  lemma {:induction false} TrimAssetsFirstFailure(items: seq<Json>, i: nat)
    requires i < |items|
    requires TrimAssets(items[..i]).Ok?
    requires MiniAsset(items[i]).Err?
    ensures TrimAssets(items) == Err(MiniAsset(items[i]).error)
    decreases |items|
  {
    var init := items[..|items| - 1];
    if i < |items| - 1 {
      assert init[..i] == items[..i];
      assert init[i] == items[i];
      TrimAssetsFirstFailure(init, i);
    }
  }

  /**
   * The source's get_tag_info after the response is parsed: deletes
   * `author`, builds the trimmed asset list by appending one entry per
   * asset, and stores it back under `assets`.
   */
  method GetTagInfo(release: Json) returns (r: Result<map<string, Json>, Failure>)
    ensures r == TrimmedRelease(release)
  {
    if !release.JObj? {
      return Err(TypeError);
    }
    var releases := release.fields;
    if "author" !in releases {
      return Err(KeyError("author"));
    }
    releases := releases - {"author"};
    if "assets" !in releases {
      return Err(KeyError("assets"));
    }
    var assets := Elements(releases["assets"]);
    if assets.Err? {
      return Err(assets.error);
    }
    var items := assets.value;
    var miniAssets: seq<Json> := [];
    var i := 0;
    while i < |items|
      invariant 0 <= i <= |items|
      invariant TrimAssets(items[..i]) == Ok(miniAssets)
    {
      var rel := items[i];
      var temp: map<string, Json> := map[];
      var name := Subscript(rel, "name");
      if name.Err? {
        TrimAssetsFirstFailure(items, i);
        return Err(name.error);
      }
      temp := temp["name" := name.value];
      var url := Subscript(rel, "browser_download_url");
      if url.Err? {
        TrimAssetsFirstFailure(items, i);
        return Err(url.error);
      }
      temp := temp["browser_download_url" := url.value];
      miniAssets := miniAssets + [JObj(temp)];
      assert items[..i + 1][..i] == items[..i];
      i := i + 1;
    }
    assert items[..i] == items;
    releases := releases["assets" := JArr(miniAssets)];
    return Ok(releases);
  }

  /**
   * Assets that are a string or an object rather than a list trim only
   * when empty: every element they yield raises TypeError at `rel["name"]`.
   */
  lemma NonListAssetsTrimOnlyWhenEmpty(v: Json)
    requires !v.JArr? && Elements(v).Ok?
    ensures TrimAssets(Elements(v).value).Ok? <==> Elements(v).value == []
    ensures Elements(v).value != [] ==> TrimAssets(Elements(v).value) == Err(TypeError)
  {
    var items := Elements(v).value;
    if items != [] {
      assert MiniAsset(items[0]) == Err(TypeError);
      assert items[..0] == [];
      TrimAssetsFirstFailure(items, 0);
    }
  }

  /** A trimmed asset entry trims to itself. */
  lemma MiniAssetIdempotent(rel: Json)
    requires MiniAsset(rel).Ok?
    ensures MiniAsset(MiniAsset(rel).value) == MiniAsset(rel)
  {
    var m := MiniAsset(rel).value.fields;
    assert m == map["name" := m["name"], "browser_download_url" := m["browser_download_url"]];
  }

  /** Trimming an already trimmed asset list changes nothing. */
  lemma TrimAssetsIdempotent(items: seq<Json>)
    requires TrimAssets(items).Ok?
    ensures TrimAssets(TrimAssets(items).value) == TrimAssets(items)
  {
    var mini := TrimAssets(items).value;
    forall i | 0 <= i < |mini|
      ensures MiniAsset(mini[i]) == Ok(mini[i])
    {
      MiniAssetIdempotent(items[i]);
    }
    var again := TrimAssets(mini).value;
    assert forall i :: 0 <= i < |mini| ==> MiniAsset(mini[i]) == Ok(again[i]);
    assert again == mini;
  }

  /**
   * A list of assets keeps its length and order; each entry keeps exactly
   * its name and download URL.
   */
  lemma AssetListTrimmed(release: Json, xs: seq<Json>)
    requires TrimmedRelease(release).Ok?
    requires release.fields["assets"] == JArr(xs)
    ensures var out := TrimmedRelease(release).value["assets"];
      out.JArr? && |out.items| == |xs| &&
      forall i :: 0 <= i < |xs| ==>
        xs[i].JObj? && out.items[i] == JObj(map["name" := xs[i].fields["name"],
                                                "browser_download_url" := xs[i].fields["browser_download_url"]])
  {
    var out := TrimmedRelease(release).value["assets"];
    forall i | 0 <= i < |xs|
      ensures xs[i].JObj? && out.items[i] == JObj(map["name" := xs[i].fields["name"],
                                                      "browser_download_url" := xs[i].fields["browser_download_url"]])
    {
      assert MiniAsset(xs[i]) == Ok(out.items[i]);
    }
  }

  /**
   * Trimming a trimmed record again raises KeyError on the deleted `author`,
   * while trimming its asset list again gives the same list.
   */
  lemma TrimmedReleaseTwice(release: Json)
    requires TrimmedRelease(release).Ok?
    ensures TrimmedRelease(JObj(TrimmedRelease(release).value)) == Err(KeyError("author"))
    ensures var assets := TrimmedRelease(release).value["assets"];
      TrimAssets(assets.items) == Ok(assets.items)
  {
    TrimAssetsIdempotent(Elements(release.fields["assets"]).value);
  }
}
