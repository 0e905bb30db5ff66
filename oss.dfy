/**
  Object-store key and URL builders (src/lib/oss.ts). Keys live in two
  namespaces under `sesese-se/`: `artworks/<id>/<file>` for artwork images
  and `assets/<file>` for the site's static assets. Each builder has an
  inverse parser here, so that the round trips, the disjointness of the two
  namespaces and the injectivity of the artwork builder can be stated.
*/
module Oss {
  import opened Wrappers

  const BucketUrl: string := "https://lmd-oss.oss-cn-shenzhen.aliyuncs.com"
  const ArtworksPrefix: string := "sesese-se/artworks/"
  const AssetsPrefix: string := "sesese-se/assets/"

  /** `s` with `prefix` removed, or `None` when `s` does not start with it. */
  function StripPrefix(prefix: string, s: string): (r: Option<string>)
    ensures r.Some? <==> prefix <= s
    ensures r.Some? ==> prefix + r.value == s
  {
    if prefix <= s then Some(s[|prefix|..]) else None
  }

  /** The first position of `c` in `s`. */
  function IndexOf(s: string, c: char): (r: Option<nat>)
    ensures r.None? <==> c !in s
    ensures r.Some? ==> r.value < |s| && s[r.value] == c && c !in s[..r.value]
  {
    if s == [] then None
    else if s[0] == c then Some(0)
    else match IndexOf(s[1..], c)
      case None => None
      case Some(k) => assert s[..k + 1] == [s[0]] + s[1..][..k]; Some(k + 1)
  }

  /** getOSSPath: the public URL of an object key. */
  function OssPath(path: string): (url: string)
  {
    BucketUrl + "/" + path
  }

  /** getArtworkPath: the key of file `filename` of artwork `id`. */
  function ArtworkPath(id: string, filename: string): (key: string)
  {
    ArtworksPrefix + id + "/" + filename
  }

  /** getAssetPath: the key of a static asset. */
  function AssetPath(filename: string): (key: string)
  {
    AssetsPrefix + filename
  }

  function ParseOssUrl(url: string): Option<string> {
    StripPrefix(BucketUrl + "/", url)
  }

  function ParseAssetKey(key: string): Option<string> {
    StripPrefix(AssetsPrefix, key)
  }

  /** Splits an artwork key at the first `/` after the prefix. */
  function ParseArtworkKey(key: string): Option<(string, string)> {
    match StripPrefix(ArtworksPrefix, key)
    case None => None
    case Some(rest) =>
      match IndexOf(rest, '/')
      case None => None
      case Some(k) => Some((rest[..k], rest[k + 1..]))
  }

  lemma OssPathRoundTrip(path: string)
    ensures ParseOssUrl(OssPath(path)) == Some(path)
  {
    assert OssPath(path) == (BucketUrl + "/") + path;
  }

  lemma OssPathInjective(p: string, q: string)
    ensures OssPath(p) == OssPath(q) ==> p == q
  {
    OssPathRoundTrip(p);
    OssPathRoundTrip(q);
  }

  lemma AssetPathRoundTrip(filename: string)
    ensures ParseAssetKey(AssetPath(filename)) == Some(filename)
  {
  }

  /** Every key the asset parser accepts is an asset key, and conversely. */
  lemma ParseAssetKeyExact(key: string, filename: string)
    ensures ParseAssetKey(key) == Some(filename) <==> key == AssetPath(filename)
  {
    if key == AssetPath(filename) {
      AssetPathRoundTrip(filename);
    }
  }

  /** For an id without `/`, parsing an artwork key gives back its two parts. */
  lemma ArtworkPathRoundTrip(id: string, filename: string)
    requires '/' !in id
    ensures ParseArtworkKey(ArtworkPath(id, filename)) == Some((id, filename))
  {
    var key := ArtworkPath(id, filename);
    var rest := id + "/" + filename;
    assert key == ArtworksPrefix + rest;
    assert StripPrefix(ArtworksPrefix, key) == Some(rest);
    assert rest[|id|] == '/' && rest[..|id|] == id;
    assert IndexOf(rest, '/') == Some(|id|);
    assert rest[|id| + 1..] == filename;
  }

  /** The parser accepts exactly the keys the builder produces for ids without `/`. */
  lemma ParseArtworkKeyExact(key: string, id: string, filename: string)
    ensures ParseArtworkKey(key) == Some((id, filename)) <==> '/' !in id && key == ArtworkPath(id, filename)
  {
    if ParseArtworkKey(key) == Some((id, filename)) {
      var rest := StripPrefix(ArtworksPrefix, key).value;
      var k := IndexOf(rest, '/').value;
      assert rest == rest[..k] + "/" + rest[k + 1..];
    }
    if '/' !in id && key == ArtworkPath(id, filename) {
      ArtworkPathRoundTrip(id, filename);
    }
  }

  /** For ids without `/`, getArtworkPath never maps two argument pairs to one key. */
  lemma ArtworkPathInjective(id1: string, f1: string, id2: string, f2: string)
    requires '/' !in id1 && '/' !in id2
    ensures ArtworkPath(id1, f1) == ArtworkPath(id2, f2) ==> id1 == id2 && f1 == f2
  {
    ArtworkPathRoundTrip(id1, f1);
    ArtworkPathRoundTrip(id2, f2);
  }

  /** The two namespaces are disjoint: they part at `artworks/` versus `assets/`. */
  lemma ArtworkPathNeverAssetPath(id: string, f: string, g: string)
    ensures ArtworkPath(id, f) != AssetPath(g)
    ensures ParseAssetKey(ArtworkPath(id, f)) == None
    ensures ParseArtworkKey(AssetPath(g)) == None
  {
    assert ArtworkPath(id, f)[11] == 'r';
    assert AssetPath(g)[11] == 's';
  }
}
