/** `amazon_url` of `group_a/gen_ai/src/data_preprocess.py`: for every
    product, the image URLs of the highest resolution available, position
    by position: `hi_res`, else `large`, else `thumb`. Each variant is a
    numpy array of URLs or `None`, combined by `np.where`, which
    broadcasts an array of length 1 against a longer one and raises for
    other length mismatches. */
module ImageUrls {
  import opened Wrappers

  type Url = Option<string>

  /** The three variants of one product's images. */
  datatype Images = Images(hiRes: seq<Url>, large: seq<Url>, thumb: seq<Url>)

  /** numpy broadcasting of two one-dimensional shapes. */
  predicate Broadcastable(m: nat, n: nat) {
    m == n || m == 1 || n == 1
  }

  function BroadcastLength(m: nat, n: nat): (k: nat)
    requires Broadcastable(m, n)
    ensures k == m || k == n
    ensures m == n ==> k == n
    ensures (m == 1 ==> k == n) && (n == 1 ==> k == m)
  {
    if m == 1 then n else m
  }

  /** Entry `i` of an array broadcast to a longer length. */
  function At(a: seq<Url>, i: nat): Url
    requires |a| == 1 || i < |a|
  {
    if |a| == 1 then a[0] else a[i]
  }

  /** `np.where(a == None, b, a)`: `a`'s URL where it has one, `b`'s
      otherwise. */
  function FillMissing(a: seq<Url>, b: seq<Url>): (r: Result<seq<Url>>)
    ensures r.Success? <==> Broadcastable(|a|, |b|)
    ensures r.Success? ==> |r.value| == BroadcastLength(|a|, |b|)
    ensures r.Success? ==> forall i :: 0 <= i < |r.value| ==>
      r.value[i] == if At(a, i).Some? then At(a, i) else At(b, i)
  {
    if !Broadcastable(|a|, |b|) then Failure("operands could not be broadcast together")
    else
      var n := BroadcastLength(|a|, |b|);
      Success(seq(n, i requires 0 <= i < n => if At(a, i).Some? then At(a, i) else At(b, i)))
  }

  /** `get_url`. */
  function GetUrl(image: Images): (r: Result<seq<Url>>)
    ensures var h, l, t := |image.hiRes|, |image.large|, |image.thumb|;
      r.Success? <==> Broadcastable(h, l) && Broadcastable(BroadcastLength(h, l), t)
  {
    var res :- FillMissing(image.hiRes, image.large);
    FillMissing(res, image.thumb)
  }

  /** The first URL present in a list of candidates, best first. */
  function FirstPresent(candidates: seq<Url>): (u: Url)
    ensures u.Some? <==> exists j :: 0 <= j < |candidates| && candidates[j].Some?
  {
    if |candidates| == 0 then None
    else if candidates[0].Some? then candidates[0]
    else FirstPresent(candidates[1..])
  }

  /** For three arrays of one length, position `i` of the result is the
      best variant present there, and is missing only when all three are
      missing. */
  lemma GetUrlPrefersResolution(image: Images, i: nat)
    requires |image.hiRes| == |image.large| == |image.thumb| && i < |image.hiRes|
    ensures GetUrl(image).Success? && |GetUrl(image).value| == |image.hiRes|
    ensures GetUrl(image).value[i] == FirstPresent([image.hiRes[i], image.large[i], image.thumb[i]])
    ensures image.hiRes[i].Some? ==> GetUrl(image).value[i] == image.hiRes[i]
    ensures image.hiRes[i].None? && image.large[i].Some? ==> GetUrl(image).value[i] == image.large[i]
    ensures image.hiRes[i].None? && image.large[i].None? ==> GetUrl(image).value[i] == image.thumb[i]
    ensures GetUrl(image).value[i].None? <==> image.hiRes[i].None? && image.large[i].None? && image.thumb[i].None?
  {
    var n := |image.hiRes|;
    var res := FillMissing(image.hiRes, image.large).value;
    assert |res| == n;
    assert At(image.hiRes, i) == image.hiRes[i] && At(image.large, i) == image.large[i];
    assert res[i] == if image.hiRes[i].Some? then image.hiRes[i] else image.large[i];
    var out := FillMissing(res, image.thumb).value;
    assert At(res, i) == res[i] && At(image.thumb, i) == image.thumb[i];
    assert out[i] == if res[i].Some? then res[i] else image.thumb[i];
    var c := [image.hiRes[i], image.large[i], image.thumb[i]];
    assert c[1..] == [image.large[i], image.thumb[i]];
    assert c[1..][1..] == [image.thumb[i]];
    assert FirstPresent(c[1..][1..]) == image.thumb[i];
  }

  /** A product whose thumbnails are all present gets a URL at every
      position. */
  lemma ThumbsCompleteResult(image: Images)
    requires |image.hiRes| == |image.large| == |image.thumb|
    requires forall i :: 0 <= i < |image.thumb| ==> image.thumb[i].Some?
    ensures GetUrl(image).Success?
    ensures forall i :: 0 <= i < |GetUrl(image).value| ==> GetUrl(image).value[i].Some?
  {
    forall i | 0 <= i < |image.thumb|
      ensures GetUrl(image).value[i].Some?
    {
      GetUrlPrefersResolution(image, i);
    }
  }

  /** `amazon_url`: `get_url` of every product, in order; the first product
      whose arrays cannot be broadcast raises. */
  function AmazonUrl(images: seq<Images>): (r: Result<seq<seq<Url>>>)
    ensures r.Success? <==> forall k :: 0 <= k < |images| ==> GetUrl(images[k]).Success?
    ensures r.Success? ==> |r.value| == |images|
    ensures r.Success? ==> forall k :: 0 <= k < |images| ==> r.value[k] == GetUrl(images[k]).value
  {
    if |images| == 0 then Success([])
    else
      match GetUrl(images[0])
      case Failure(e) => Failure(e)
      case Success(first) =>
        match AmazonUrl(images[1..])
        case Failure(e) =>
          assert exists k :: 0 <= k < |images[1..]| && GetUrl(images[1..][k]).Failure?;
          Failure(e)
        case Success(rest) =>
          assert forall k :: 1 <= k < |images| ==> images[k] == images[1..][k - 1];
          Success([first] + rest)
  }
}
