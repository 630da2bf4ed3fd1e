/**
 * Image url canonicalisation of the content exporter: every attached image url is
 * reduced to its full-size form, and the empty ones are dropped.
 */
module Images {
  import opened Strings

  /**
   * The full-size form of an image url: everything before the first "=s" (all of
   * the url when it has none), then "=s0".
   */
  function Canonical(url: string): (r: string)
    ensures EndsWith(r, "=s0")
    ensures !Contains(r[..|r| - 3], "=s")
    ensures StartsWith(url, r[..|r| - 3])
    ensures r[..|r| - 3] == url || OccursAt(url, "=s", |r| - 3)
    ensures forall j | 0 <= j < |r| - 3 :: !OccursAt(url, "=s", j)
  {
    var base := Before(url, "=s");
    assert (base + "=s0")[..|base|] == base;
    base + "=s0"
  }

  /** The first "=s" of `p + rest` is where `rest` starts, when `p` has none and `rest` begins with one. */
  lemma BeforeSizeSuffix(p: string, rest: string)
    requires !Contains(p, "=s") && StartsWith(rest, "=s")
    ensures Before(p + rest, "=s") == p
  {
    var s := p + rest;
    assert OccursAt(s, "=s", |p|) by {
      assert s[|p|..|p| + 2] == rest[..2];
    }
    forall j | 0 <= j < |p|
      ensures !OccursAt(s, "=s", j)
    {
      if j + 2 <= |p| {
        assert s[j..j + 2] == p[j..j + 2];
        assert !OccursAt(p, "=s", j);
      } else {
        assert rest[..2] == "=s";
        assert s[j..j + 2][1] == s[j + 1] == rest[0] == '=';
      }
    }
    assert s[..|p|] == p;
  }

  /** Canonicalising a canonical url changes nothing. */
  lemma CanonicalIdempotent(url: string)
    ensures Canonical(Canonical(url)) == Canonical(url)
  {
    var base := Before(url, "=s");
    BeforeSizeSuffix(base, "=s0");
  }

  /** Urls that agree up to their first "=s" and differ only in the size part collapse to one. */
  lemma SizeVariantsCollapse(url: string, size: string)
    ensures Canonical(Before(url, "=s") + "=s" + size) == Canonical(url)
  {
    var base := Before(url, "=s");
    assert base + "=s" + size == base + ("=s" + size);
    BeforeSizeSuffix(base, "=s" + size);
  }

  /**
   * The canonical forms of the non-empty urls, each once, in order of first
   * occurrence.
   */
  function Deduplicated(images: seq<string>): seq<string> {
    if images == [] then []
    else
      var kept := Deduplicated(images[..|images| - 1]);
      var image := images[|images| - 1];
      if image == "" || Canonical(image) in kept then kept else kept + [Canonical(image)]
  }

  /** `deduplicate_images`. */
  method DeduplicateImages(images: seq<string>) returns (urls: seq<string>)
    ensures urls == Deduplicated(images)
  {
    urls := [];
    for i := 0 to |images|
      invariant urls == Deduplicated(images[..i])
    {
      assert images[..i + 1][..i] == images[..i];
      var image := images[i];
      if image != "" {
        var url := Canonical(image);
        if url !in urls {
          urls := urls + [url];
        }
      }
    }
    assert images[..|images|] == images;
  }

  predicate Distinct(urls: seq<string>) {
    forall i, j | 0 <= i < j < |urls| :: urls[i] != urls[j]
  }

  /** No url appears twice in the result. */
  lemma {:induction false} DeduplicatedDistinct(images: seq<string>)
    ensures Distinct(Deduplicated(images))
  {
    if images != [] {
      var kept := Deduplicated(images[..|images| - 1]);
      DeduplicatedDistinct(images[..|images| - 1]);
      var image := images[|images| - 1];
      if image != "" && Canonical(image) !in kept {
        var urls := kept + [Canonical(image)];
        assert forall i | 0 <= i < |kept| :: urls[i] == kept[i] != urls[|kept|];
      }
    }
  }

  /** Every result is the canonical form of some non-empty input url; `k` is one. */
  lemma {:induction false} DeduplicatedFrom(images: seq<string>, url: string) returns (k: nat)
    requires url in Deduplicated(images)
    ensures k < |images| && images[k] != "" && Canonical(images[k]) == url
  {
    var n := |images| - 1;
    if url in Deduplicated(images[..n]) {
      k := DeduplicatedFrom(images[..n], url);
    } else {
      k := n;
    }
  }

  /** Every non-empty input url is represented by its canonical form. */
  lemma {:induction false} DeduplicatedCovers(images: seq<string>, k: nat)
    requires k < |images| && images[k] != ""
    ensures Canonical(images[k]) in Deduplicated(images)
  {
    var n := |images| - 1;
    if k < n {
      assert images[..n][k] == images[k];
      DeduplicatedCovers(images[..n], k);
    }
  }

  /** Every url of the result is already canonical. */
  lemma DeduplicatedCanonical(images: seq<string>, url: string)
    requires url in Deduplicated(images)
    ensures Canonical(url) == url
  {
    var k := DeduplicatedFrom(images, url);
    CanonicalIdempotent(images[k]);
  }

  function NonEmptyCount(images: seq<string>): nat {
    if images == [] then 0
    else NonEmptyCount(images[..|images| - 1]) + (if images[|images| - 1] == "" then 0 else 1)
  }

  /** There are at most as many urls as non-empty inputs. */
  lemma {:induction false} DeduplicatedBound(images: seq<string>)
    ensures |Deduplicated(images)| <= NonEmptyCount(images)
  {
    if images != [] {
      DeduplicatedBound(images[..|images| - 1]);
    }
  }
}
