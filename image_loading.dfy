/**
 * Image-size bookkeeping of the image viewer: one size entry per image,
 * created as `loading` by `init` and resolved once, by `loadImage`, to
 * `success` or `fail`.
 */
module ImageLoading {

  import opened Wrappers

  /** The status of one image's size entry. */
  datatype Status = Loading | Success | Fail

  /** The viewer's record of one image's size (IImageSize). */
  datatype ImageSize = ImageSize(width: real, height: real, status: Status)

  /** A width and a height reported by the platform's image API. */
  datatype Dims = Dims(width: real, height: real)

  /**
   * The parts of one `imageUrls` element (IImageInfo) that loading reads.
   * `url == ""` stands for a missing or empty url; `hasSource` says whether
   * `props.source` is set.
   */
  datatype ImageInfo = ImageInfo(url: string, width: Option<real>, height: Option<real>, hasSource: bool)

  /**
   * What the platform answers about one image: `fetched` is the outcome of
   * `Image.getSize` on its url (None when the failure callback runs), `asset`
   * is what `Image.resolveAssetSource` reports for its `props.source`.
   */
  datatype Probe = Probe(fetched: Option<Dims>, asset: Dims)

  /**
   * The image part of the viewer's state: the size entries, the indices
   * already requested (the `loadedIndex` map, whose values are always true),
   * and the urls handed to `Image.prefetch`, in order.
   */
  datatype Images = Images(sizes: seq<ImageSize>, loaded: set<int>, prefetched: seq<string>)

  /** JavaScript truthiness of an optional number: present and not zero. */
  predicate Truthy(x: Option<real>) {
    x.Some? && x.value != 0.0
  }

  /** `x || 0` for an optional number. */
  function OrZero(x: Option<real>): real {
    if Truthy(x) then x.value else 0.0
  }

  /** An image with no url or a `file:` url counts as loaded already and is never prefetched. */
  predicate IsLocal(url: string)
    ensures IsLocal(url) <==> url == "" || (|url| >= 5 && url[..5] == "file:")
  {
    url == "" || "file:" <= url
  }

  /** The entry `init` pushes for one image. */
  function InitialSize(info: ImageInfo): ImageSize {
    ImageSize(OrZero(info.width), OrZero(info.height), Loading)
  }

  /** The entries `init` builds, one pushed per image in order. */
  function InitialSizes(urls: seq<ImageInfo>): (sizes: seq<ImageSize>)
    ensures |sizes| == |urls|
    ensures forall i :: 0 <= i < |urls| ==>
      sizes[i] == ImageSize(OrZero(urls[i].width), OrZero(urls[i].height), Loading)
  {
    if urls == [] then [] else InitialSizes(urls[..|urls| - 1]) + [InitialSize(urls[|urls| - 1])]
  }

  /** The `forEach`/`push` loop of `init`. */
  method BuildImageSizes(urls: seq<ImageInfo>) returns (sizes: seq<ImageSize>)
    ensures |sizes| == |urls|
    ensures forall i :: 0 <= i < |urls| ==>
      sizes[i] == ImageSize(OrZero(urls[i].width), OrZero(urls[i].height), Loading)
    ensures sizes == InitialSizes(urls)
  {
    sizes := [];
    var k := 0;
    while k < |urls|
      invariant 0 <= k <= |urls|
      invariant sizes == InitialSizes(urls[..k])
    {
      assert urls[..k + 1][..k] == urls[..k];
      sizes := sizes + [ImageSize(OrZero(urls[k].width), OrZero(urls[k].height), Loading)];
      k := k + 1;
    }
    assert urls[..k] == urls;
  }

  /**
   * The entry `loadImage` settles on for an image that passed its guards, or
   * None when it stops because the entry is already a success.
   */
  function Resolve(entry: ImageSize, image: ImageInfo, probe: Probe): (r: Option<ImageSize>)
    ensures r.None? <==> entry.status == Success
    ensures r.Some? ==> r.value.status != Loading
  {
    if entry.status == Success then None
    else if entry.width > 0.0 && entry.height > 0.0 then Some(entry.(status := Success))
    else if Truthy(image.width) && Truthy(image.height) then
      Some(ImageSize(image.width.value, image.height.value, Success))
    else if image.url != "" then
      match probe.fetched
      case Some(d) => Some(ImageSize(d.width, d.height, Success))
      case None => Some(entry.(status := Fail))
    else if image.hasSource then Some(ImageSize(probe.asset.width, probe.asset.height, Success))
    else Some(entry.(status := Fail))
  }

  /** The urls `loadImage` prefetches: only on the branch of known source dimensions, and only for a remote image. */
  function PrefetchOf(entry: ImageSize, image: ImageInfo, enablePreload: bool): (r: seq<string>)
    ensures |r| <= 1
    ensures r != [] ==> r == [image.url] && !IsLocal(image.url) && enablePreload
    ensures r != [] <==>
      entry.status != Success && !(entry.width > 0.0 && entry.height > 0.0) &&
      Truthy(image.width) && Truthy(image.height) && enablePreload && !IsLocal(image.url)
  {
    if entry.status != Success && !(entry.width > 0.0 && entry.height > 0.0)
       && Truthy(image.width) && Truthy(image.height) && enablePreload && !IsLocal(image.url)
    then [image.url]
    else []
  }

  /** `saveImageSize`: overwrite the entry at `index` with `st`, unless it has left `loading`. */
  function Save(sizes: seq<ImageSize>, index: int, st: ImageSize): (r: seq<ImageSize>)
    requires 0 <= index < |sizes|
    ensures |r| == |sizes|
    ensures forall j :: 0 <= j < |sizes| && j != index ==> r[j] == sizes[j]
    ensures sizes[index].status != Loading ==> r == sizes
    ensures sizes[index].status == Loading ==> r == sizes[index := st]
  {
    if sizes[index].status != Loading then sizes else sizes[index := st]
  }

  /** The effect of `loadImage(index)` on the image state. */
  function Load(s: Images, urls: seq<ImageInfo>, enablePreload: bool, index: int, probe: Probe): (r: Images)
    requires |s.sizes| == |urls|
    ensures |r.sizes| == |s.sizes|
    ensures r.loaded == if 0 <= index < |s.sizes| then s.loaded + {index} else s.loaded
    ensures forall j :: 0 <= j < |s.sizes| && (j != index || s.sizes[j].status != Loading) ==>
      r.sizes[j] == s.sizes[j]
  {
    if !(0 <= index < |s.sizes|) || index in s.loaded then s
    else
      var entry := s.sizes[index];
      var sizes := match Resolve(entry, urls[index], probe)
                   case None => s.sizes
                   case Some(st) => Save(s.sizes, index, st);
      Images(sizes, s.loaded + {index}, s.prefetched + PrefetchOf(entry, urls[index], enablePreload))
  }

  /** `loadImage` on an index that may be absent (the neighbour loads of the gesture handlers). */
  function LoadAt(s: Images, urls: seq<ImageInfo>, enablePreload: bool, index: Option<int>, probe: Probe): Images
    requires |s.sizes| == |urls|
  {
    match index
    case None => s
    case Some(i) => Load(s, urls, enablePreload, i, probe)
  }

  /** Every entry whose index was never requested is still loading. */
  ghost predicate UnrequestedAreLoading(s: Images) {
    forall i :: 0 <= i < |s.sizes| && i !in s.loaded ==> s.sizes[i].status == Loading
  }

  /** Every entry whose index was requested has left loading. */
  ghost predicate RequestedAreSettled(s: Images) {
    forall i :: 0 <= i < |s.sizes| && i in s.loaded ==> s.sizes[i].status != Loading
  }

  /** A load request: the index and what the platform answers for it. */
  datatype Request = Request(index: int, probe: Probe)

  /** A sequence of `loadImage` calls, in order. */
  function LoadAll(s: Images, urls: seq<ImageInfo>, enablePreload: bool, reqs: seq<Request>): (r: Images)
    requires |s.sizes| == |urls|
    ensures |r.sizes| == |s.sizes|
    decreases |reqs|
  {
    if reqs == [] then s
    else LoadAll(Load(s, urls, enablePreload, reqs[0].index, reqs[0].probe), urls, enablePreload, reqs[1..])
  }

  /** The indices in range that a sequence of requests names. */
  function RequestedIndices(reqs: seq<Request>, n: int): set<int> {
    set k | 0 <= k < |reqs| && 0 <= reqs[k].index < n :: reqs[k].index
  }

  /** An index outside the entries, or one already requested, leaves the state unchanged. */
  lemma LoadGuards(s: Images, urls: seq<ImageInfo>, enablePreload: bool, index: int, probe: Probe)
    requires |s.sizes| == |urls|
    ensures !(0 <= index < |s.sizes|) ==> Load(s, urls, enablePreload, index, probe) == s
    ensures index in s.loaded ==> Load(s, urls, enablePreload, index, probe) == s
  {
  }

  /** Loading an index twice is loading it once, whatever the platform answers the second time. */
  lemma LoadTwiceIsOnce(s: Images, urls: seq<ImageInfo>, enablePreload: bool, index: int, p1: Probe, p2: Probe)
    requires |s.sizes| == |urls|
    ensures var once := Load(s, urls, enablePreload, index, p1);
            Load(once, urls, enablePreload, index, p2) == once
  {
  }

  /** A first request of a loading entry settles it to what Resolve computes. */
  lemma LoadSettles(s: Images, urls: seq<ImageInfo>, enablePreload: bool, index: int, probe: Probe)
    requires |s.sizes| == |urls|
    requires 0 <= index < |s.sizes| && index !in s.loaded && s.sizes[index].status == Loading
    ensures var r := Load(s, urls, enablePreload, index, probe);
            Resolve(s.sizes[index], urls[index], probe).Some? &&
            r.sizes[index] == Resolve(s.sizes[index], urls[index], probe).value &&
            r.sizes[index].status in {Success, Fail}
  {
  }

  /** An entry that already has a positive width and height becomes a success with the same dimensions. */
  lemma LoadKnownSize(s: Images, urls: seq<ImageInfo>, enablePreload: bool, index: int, probe: Probe)
    requires |s.sizes| == |urls|
    requires 0 <= index < |s.sizes| && index !in s.loaded && s.sizes[index].status == Loading
    requires s.sizes[index].width > 0.0 && s.sizes[index].height > 0.0
    ensures Load(s, urls, enablePreload, index, probe).sizes[index] == s.sizes[index].(status := Success)
  {
  }

  /** Otherwise, source dimensions given with the image are taken as they are. */
  lemma LoadGivenSize(s: Images, urls: seq<ImageInfo>, enablePreload: bool, index: int, probe: Probe)
    requires |s.sizes| == |urls|
    requires 0 <= index < |s.sizes| && index !in s.loaded && s.sizes[index].status == Loading
    requires !(s.sizes[index].width > 0.0 && s.sizes[index].height > 0.0)
    requires Truthy(urls[index].width) && Truthy(urls[index].height)
    ensures Load(s, urls, enablePreload, index, probe).sizes[index] ==
            ImageSize(urls[index].width.value, urls[index].height.value, Success)
  {
  }

  /** Otherwise, an image with a url takes what `Image.getSize` reports, or fails with it. */
  lemma LoadFetched(s: Images, urls: seq<ImageInfo>, enablePreload: bool, index: int, probe: Probe)
    requires |s.sizes| == |urls|
    requires 0 <= index < |s.sizes| && index !in s.loaded && s.sizes[index].status == Loading
    requires !(s.sizes[index].width > 0.0 && s.sizes[index].height > 0.0)
    requires !(Truthy(urls[index].width) && Truthy(urls[index].height))
    requires urls[index].url != ""
    ensures var e := Load(s, urls, enablePreload, index, probe).sizes[index];
            match probe.fetched
            case Some(d) => e == ImageSize(d.width, d.height, Success)
            case None => e == s.sizes[index].(status := Fail)
  {
  }

  /** Otherwise, an image without a url but with a `props.source` takes the dimensions of the resolved asset. */
  lemma LoadFromAsset(s: Images, urls: seq<ImageInfo>, enablePreload: bool, index: int, probe: Probe)
    requires |s.sizes| == |urls|
    requires 0 <= index < |s.sizes| && index !in s.loaded && s.sizes[index].status == Loading
    requires !(s.sizes[index].width > 0.0 && s.sizes[index].height > 0.0)
    requires !(Truthy(urls[index].width) && Truthy(urls[index].height))
    requires urls[index].url == "" && urls[index].hasSource
    ensures Load(s, urls, enablePreload, index, probe).sizes[index] ==
            ImageSize(probe.asset.width, probe.asset.height, Success)
  {
  }

  /** Otherwise, an image with neither a url nor a `props.source` fails, keeping its entry's dimensions. */
  lemma LoadWithoutSourceFails(s: Images, urls: seq<ImageInfo>, enablePreload: bool, index: int, probe: Probe)
    requires |s.sizes| == |urls|
    requires 0 <= index < |s.sizes| && index !in s.loaded && s.sizes[index].status == Loading
    requires !(s.sizes[index].width > 0.0 && s.sizes[index].height > 0.0)
    requires !(Truthy(urls[index].width) && Truthy(urls[index].height))
    requires urls[index].url == "" && !urls[index].hasSource
    ensures Load(s, urls, enablePreload, index, probe).sizes[index] == s.sizes[index].(status := Fail)
  {
  }

  /**
   * For an entry as `init` built it, the first load prefetches exactly when
   * preloading is on, the url is remote, and the given width and height are
   * both non-zero but not both positive.
   */
  lemma LoadPrefetches(s: Images, urls: seq<ImageInfo>, enablePreload: bool, index: int, probe: Probe)
    requires |s.sizes| == |urls|
    requires 0 <= index < |s.sizes| && index !in s.loaded && s.sizes[index] == InitialSize(urls[index])
    ensures var image := urls[index];
            Load(s, urls, enablePreload, index, probe).prefetched ==
              if enablePreload && !IsLocal(image.url) && Truthy(image.width) && Truthy(image.height)
                 && !(image.width.value > 0.0 && image.height.value > 0.0)
              then s.prefetched + [image.url]
              else s.prefetched
  {
  }

  /**
   * `init` copies positive given sizes into the entry, so the early success
   * for known sizes catches them first: an image given a positive width and
   * height is never prefetched.
   */
  lemma {:induction false} PrefetchDeadForPositiveDims(s: Images, urls: seq<ImageInfo>, enablePreload: bool, index: int, probe: Probe)
    requires |s.sizes| == |urls|
    requires 0 <= index < |s.sizes| && s.sizes[index] == InitialSize(urls[index])
    requires urls[index].width.Some? && urls[index].width.value > 0.0
    requires urls[index].height.Some? && urls[index].height.value > 0.0
    ensures Load(s, urls, enablePreload, index, probe).prefetched == s.prefetched
  {
    if index !in s.loaded {
      LoadPrefetches(s, urls, enablePreload, index, probe);
    }
  }

  /** Both halves of the bookkeeping invariant survive every load. */
  lemma LoadKeepsBookkeeping(s: Images, urls: seq<ImageInfo>, enablePreload: bool, index: int, probe: Probe)
    requires |s.sizes| == |urls|
    ensures UnrequestedAreLoading(s) ==> UnrequestedAreLoading(Load(s, urls, enablePreload, index, probe))
    ensures RequestedAreSettled(s) ==> RequestedAreSettled(Load(s, urls, enablePreload, index, probe))
  {
  }

  /**
   * Over any sequence of loads, a `success` or `fail` entry is never changed
   * again, and the requested set grows by exactly the in-range indices asked for.
   */
  lemma {:induction false} LoadAllKeepsSettled(s: Images, urls: seq<ImageInfo>, enablePreload: bool, reqs: seq<Request>)
    requires |s.sizes| == |urls|
    ensures var r := LoadAll(s, urls, enablePreload, reqs);
            (forall j :: 0 <= j < |s.sizes| && s.sizes[j].status != Loading ==> r.sizes[j] == s.sizes[j]) &&
            r.loaded == s.loaded + RequestedIndices(reqs, |s.sizes|)
    decreases |reqs|
  {
    if reqs != [] {
      var s1 := Load(s, urls, enablePreload, reqs[0].index, reqs[0].probe);
      LoadAllKeepsSettled(s1, urls, enablePreload, reqs[1..]);
      var n := |s.sizes|;
      assert RequestedIndices(reqs, n) ==
             (if 0 <= reqs[0].index < n then {reqs[0].index} else {}) + RequestedIndices(reqs[1..], n)
      by {
        forall x | x in RequestedIndices(reqs, n)
          ensures x in (if 0 <= reqs[0].index < n then {reqs[0].index} else {}) + RequestedIndices(reqs[1..], n)
        {
          var k :| 0 <= k < |reqs| && 0 <= reqs[k].index < n && reqs[k].index == x;
          if k > 0 { assert reqs[1..][k - 1] == reqs[k]; }
        }
        forall x | x in RequestedIndices(reqs[1..], n) ensures x in RequestedIndices(reqs, n) {
          var k :| 0 <= k < |reqs[1..]| && 0 <= reqs[1..][k].index < n && reqs[1..][k].index == x;
          assert reqs[k + 1] == reqs[1..][k];
        }
      }
    } else {
      assert RequestedIndices(reqs, |s.sizes|) == {};
    }
  }
}
