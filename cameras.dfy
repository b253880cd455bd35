/**
 * Camera configuration and image acquisition: the scan of the environment
 * for CAM_IMAGE_URL1 .. CAM_IMAGE_URL9, and the per-cycle fetch of one image
 * per configured URL, where a failed fetch leaves an empty slot.
 */
module Cameras {

  import opened Wrappers

  /** The environment variables scanned are numbered 1 .. LastUrlIndex. */
  const LastUrlIndex := 9

  const UrlPrefix := "CAM_IMAGE_URL"

  /** The name of the i-th camera variable: the prefix followed by the decimal digit i. */
  function UrlKey(i: int): string
    requires 1 <= i <= LastUrlIndex
  {
    UrlPrefix + [('0' as int + i) as char]
  }

  /** The values of the camera variables numbered i .. 9 that are set, in index order. */
  function UrlsFrom(env: map<string, string>, i: int): (urls: seq<string>)
    requires 1 <= i <= LastUrlIndex + 1
    ensures |urls| <= LastUrlIndex + 1 - i
    ensures forall u :: u in urls <==> exists j :: i <= j <= LastUrlIndex && UrlKey(j) in env && env[UrlKey(j)] == u
    decreases LastUrlIndex + 1 - i
  {
    if i == LastUrlIndex + 1 then []
    else
      var rest := UrlsFrom(env, i + 1);
      if UrlKey(i) in env then [env[UrlKey(i)]] + rest else rest
  }

  /** The configured camera URLs. */
  function ConfiguredUrls(env: map<string, string>): seq<string>
  {
    UrlsFrom(env, 1)
  }

  /** The indices 1 .. 9 whose camera variable is set. */
  function SetIndices(env: map<string, string>, i: int): set<int>
    requires 1 <= i <= LastUrlIndex + 1
  {
    set j | i <= j <= LastUrlIndex && UrlKey(j) in env
  }

  /** One URL is collected for every camera variable that is set, and no more. */
  lemma {:induction false} OneUrlPerSetVariable(env: map<string, string>, i: int)
    requires 1 <= i <= LastUrlIndex + 1
    ensures |UrlsFrom(env, i)| == |SetIndices(env, i)|
    decreases LastUrlIndex + 1 - i
  {
    if i <= LastUrlIndex {
      OneUrlPerSetVariable(env, i + 1);
      if UrlKey(i) in env {
        assert SetIndices(env, i) == {i} + SetIndices(env, i + 1);
      } else {
        assert SetIndices(env, i) == SetIndices(env, i + 1);
      }
    } else {
      assert SetIndices(env, i) == {};
    }
  }

  /** Stepping the scan past index i drops i from the set indices exactly when its variable is set. */
  lemma SetIndicesStep(env: map<string, string>, i: int)
    requires 1 <= i <= LastUrlIndex
    ensures |SetIndices(env, i)| == |SetIndices(env, i + 1)| + (if UrlKey(i) in env then 1 else 0)
  {
    if UrlKey(i) in env {
      assert SetIndices(env, i) == {i} + SetIndices(env, i + 1);
    } else {
      assert SetIndices(env, i) == SetIndices(env, i + 1);
    }
  }

  /**
   * Each set variable's URL is placed by index order: the value of variable
   * j sits at the position given by how many set variables in i .. j-1
   * precede it. With the count of `OneUrlPerSetVariable` this fixes the
   * whole list, its order and its multiplicities.
   */
  lemma {:induction false} UrlPlacement(env: map<string, string>, i: int, j: int)
    requires 1 <= i <= j <= LastUrlIndex && UrlKey(j) in env
    ensures 0 <= |SetIndices(env, i)| - |SetIndices(env, j)| < |UrlsFrom(env, i)|
    ensures UrlsFrom(env, i)[|SetIndices(env, i)| - |SetIndices(env, j)|] == env[UrlKey(j)]
    decreases j - i
  {
    if i < j {
      UrlPlacement(env, i + 1, j);
      SetIndicesStep(env, i);
      UrlsFromStep(env, i, |SetIndices(env, i + 1)| - |SetIndices(env, j)|);
    } else {
      assert j in SetIndices(env, j);
      assert UrlsFrom(env, i) == [env[UrlKey(i)]] + UrlsFrom(env, i + 1);
    }
  }

  /** Position k of the list from i + 1 is position k, or k + 1 when variable i is set, of the list from i. */
  lemma UrlsFromStep(env: map<string, string>, i: int, k: int)
    requires 1 <= i <= LastUrlIndex && 0 <= k < |UrlsFrom(env, i + 1)|
    ensures var shift := if UrlKey(i) in env then 1 else 0;
      k + shift < |UrlsFrom(env, i)| && UrlsFrom(env, i)[k + shift] == UrlsFrom(env, i + 1)[k]
  {
  }

  /** With no camera variable set the collection is empty: the daemon then refuses to start. */
  lemma NoVariablesNoUrls(env: map<string, string>)
    requires forall j :: 1 <= j <= LastUrlIndex ==> UrlKey(j) !in env
    ensures ConfiguredUrls(env) == []
  {
    OneUrlPerSetVariable(env, 1);
    assert SetIndices(env, 1) == {};
  }

  /** The loop of the source: variables 1 .. 9 in turn, each set one appended. */
  method CollectCameraUrls(env: map<string, string>) returns (urls: seq<string>)
    ensures urls == ConfiguredUrls(env)
    ensures |urls| <= LastUrlIndex
  {
    urls := [];
    var i := 1;
    while i < LastUrlIndex + 1
      invariant 1 <= i <= LastUrlIndex + 1
      invariant urls + UrlsFrom(env, i) == UrlsFrom(env, 1)
    {
      var key := UrlKey(i);
      if key in env {
        urls := urls + [env[key]];
      }
      i := i + 1;
    }
  }

  /** The slots of one cycle, one per URL: the fetched image, or None where the fetch failed. */
  function Snapshot<Img>(urls: seq<string>, fetch: string -> Option<Img>): seq<Option<Img>>
  {
    seq(|urls|, i requires 0 <= i < |urls| => fetch(urls[i]))
  }

  /**
   * The fetch step of one cycle: for every URL in order, the fetched image or
   * an empty slot when the fetch failed. `fetch` stands for the image
   * library's download, decode and resize of one URL.
   */
  method AcquireImages<Img>(urls: seq<string>, fetch: string -> Option<Img>) returns (images: seq<Option<Img>>)
    ensures |images| == |urls|
    ensures forall i :: 0 <= i < |urls| ==> images[i] == fetch(urls[i])
    ensures images == Snapshot(urls, fetch)
  {
    images := [];
    for i := 0 to |urls|
      invariant |images| == i
      invariant forall k :: 0 <= k < i ==> images[k] == fetch(urls[k])
    {
      images := images + [fetch(urls[i])];
    }
  }
}
