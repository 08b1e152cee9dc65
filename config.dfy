/** The collector configuration (src/config.ts) and the ordered category table that every
    collector reads: its flattening into one URL list, the first-match category lookup,
    and the (url, category) pairs built by the nested loops of the scripted collectors. */
module Config {
  import opened Common

  /** Largest stored image, in pixels. */
  const MaxWidth: int := 2048
  const MaxHeight: int := 2048
  /** Number of capture tasks the limiter lets run at once. */
  const Concurrency: nat := 1
  /** Retry policy: attempts per URL and the base of the linear back-off, in milliseconds. */
  const RetryAttempts: int := 3
  const RetryDelay: int := 1000

  /** One entry of a category table: a label and its URLs, in declaration order. */
  datatype Category = Category(name: string, urls: seq<string>)
  type Table = seq<Category>

  /** `Object.values(table).flat()`: every category's URLs, category after category. */
  function AllUrls(t: Table): seq<string>
    decreases |t|
  {
    if |t| == 0 then [] else t[0].urls + AllUrls(t[1..])
  }

  function TotalLength(t: Table): nat
    decreases |t|
  {
    if |t| == 0 then 0 else |t[0].urls| + TotalLength(t[1..])
  }

  /** The flattened list is as long as all category lists together. */
  lemma {:induction false} AllUrlsLength(t: Table)
    ensures |AllUrls(t)| == TotalLength(t)
    decreases |t|
  {
    if |t| > 0 {
      AllUrlsLength(t[1..]);
    }
  }

  /** Flattening keeps category order and the order inside each category. */
  lemma {:induction false} AllUrlsAppend(t1: Table, t2: Table)
    ensures AllUrls(t1 + t2) == AllUrls(t1) + AllUrls(t2)
    decreases |t1|
  {
    if |t1| > 0 {
      assert (t1 + t2)[1..] == t1[1..] + t2;
      AllUrlsAppend(t1[1..], t2);
    } else {
      assert t1 + t2 == t2;
    }
  }

  /** A URL is in the flattened list exactly when some category lists it. */
  lemma {:induction false} AllUrlsMember(t: Table, url: string)
    ensures url in AllUrls(t) <==> exists k :: 0 <= k < |t| && url in t[k].urls
    decreases |t|
  {
    if |t| > 0 {
      AllUrlsMember(t[1..], url);
      if url in AllUrls(t[1..]) {
        var k :| 0 <= k < |t[1..]| && url in t[1..][k].urls;
        assert url in t[k + 1].urls;
      }
      if exists k :: 0 <= k < |t| && url in t[k].urls {
        var k :| 0 <= k < |t| && url in t[k].urls;
        if k > 0 {
          assert url in t[1..][k - 1].urls;
        }
      }
    }
  }

  /** The position of the first category whose list contains `url`. */
  function FirstIndex(t: Table, url: string): (r: Option<nat>)
    ensures r.Some? ==> r.value < |t| && url in t[r.value].urls
    ensures r.Some? ==> forall j :: 0 <= j < r.value ==> url !in t[j].urls
    ensures r.None? <==> forall j :: 0 <= j < |t| ==> url !in t[j].urls
    decreases |t|
  {
    if |t| == 0 then None
    else if url in t[0].urls then Some(0)
    else
      match FirstIndex(t[1..], url)
      case None => None
      case Some(k) => Some(k + 1)
  }

  /** `Object.entries(table).find(([_, urls]) => urls.includes(url))?.[0]` */
  function FindCategory(t: Table, url: string): Option<string> {
    match FirstIndex(t, url)
    case None => None
    case Some(k) => Some(t[k].name)
  }

  /** `find(...)?.[0] || 'other'`: the first containing category, or `'other'` when none
      contains the URL (or when that category's label is the empty, falsy string). */
  function CategoryLabel(t: Table, url: string): (c: string)
    ensures c != ""
    ensures FirstIndex(t, url).None? ==> c == "other"
    ensures FirstIndex(t, url).Some? && t[FirstIndex(t, url).value].name != "" ==>
              c == t[FirstIndex(t, url).value].name
  {
    match FindCategory(t, url)
    case Some(name) => if name != "" then name else "other"
    case None => "other"
  }

  /** A URL paired with the category it is collected under. */
  datatype Target = Target(url: string, category: string)

  /** The pairs the nested `for (const [category, urls] ...) for (const url of urls)` loops
      push: one per table entry, in table order. */
  function Pairs(t: Table): seq<Target>
    decreases |t|
  {
    if |t| == 0 then [] else Tag(t[0]) + Pairs(t[1..])
  }

  function Tag(c: Category): (r: seq<Target>)
    ensures |r| == |c.urls|
    ensures forall k :: 0 <= k < |r| ==> r[k] == Target(c.urls[k], c.name)
  {
    seq(|c.urls|, k requires 0 <= k < |c.urls| => Target(c.urls[k], c.name))
  }

  /** Pairing keeps category order: the pairs of two tables in a row are the pairs of the
      first followed by those of the second. */
  lemma {:induction false} PairsAppend(t1: Table, t2: Table)
    ensures Pairs(t1 + t2) == Pairs(t1) + Pairs(t2)
    decreases |t1|
  {
    if |t1| > 0 {
      assert (t1 + t2)[1..] == t1[1..] + t2;
      PairsAppend(t1[1..], t2);
    } else {
      assert t1 + t2 == t2;
    }
  }

  /** The pairs list the flattened URLs, in the same order, each tagged with a category
      that lists it. */
  lemma {:induction false} PairsFollowAllUrls(t: Table)
    ensures |Pairs(t)| == |AllUrls(t)|
    ensures forall k :: 0 <= k < |Pairs(t)| ==> Pairs(t)[k].url == AllUrls(t)[k]
    ensures forall k :: 0 <= k < |Pairs(t)| ==>
              exists c :: c in t && c.name == Pairs(t)[k].category && Pairs(t)[k].url in c.urls
    decreases |t|
  {
    if |t| > 0 {
      PairsFollowAllUrls(t[1..]);
      var head := Tag(t[0]);
      forall k | 0 <= k < |Pairs(t)|
        ensures exists c :: c in t && c.name == Pairs(t)[k].category && Pairs(t)[k].url in c.urls
      {
        if k < |head| {
          assert Pairs(t)[k] == head[k];
          assert t[0] in t;
        } else {
          assert Pairs(t)[k] == Pairs(t[1..])[k - |head|];
          var c :| c in t[1..] && c.name == Pairs(t)[k].category && Pairs(t)[k].url in c.urls;
          assert c in t;
        }
      }
    }
  }
}
