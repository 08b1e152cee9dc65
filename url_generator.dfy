/** The URL list utility (src/url-generator.ts): the flattened list of an extra category
    table, a Fisher–Yates shuffle performed on a copy of the caller's array, and the text of
    a saved URL list. */
module UrlGenerator {
  import opened Common
  import Config

  /** `getPopularWebsites()`: the table's URL lists, category after category. */
  function GetPopularWebsites(table: Config.Table): (urls: seq<string>)
    ensures |urls| == Config.TotalLength(table)
    ensures forall u :: u in urls <==> exists k :: 0 <= k < |table| && u in table[k].urls
  {
    Config.AllUrlsLength(table);
    forall u
      ensures u in Config.AllUrls(table) <==> exists k :: 0 <= k < |table| && u in table[k].urls
    {
      Config.AllUrlsMember(table, u);
    }
    Config.AllUrls(table)
  }

  /** `[s[i], s[j]] = [s[j], s[i]]` */
  function Swap<T>(s: seq<T>, i: nat, j: nat): (r: seq<T>)
    requires i < |s| && j < |s|
    ensures |r| == |s| && r[i] == s[j] && r[j] == s[i]
    ensures forall k :: 0 <= k < |s| && k != i && k != j ==> r[k] == s[k]
  {
    s[i := s[j]][j := s[i]]
  }

  lemma SwapPermutes<T>(s: seq<T>, i: nat, j: nat)
    requires i < |s| && j < |s|
    ensures multiset(Swap(s, i, j)) == multiset(s)
  {
  }

  /** The partner of position `i`: `Math.floor(Math.random() * (i + 1))`, always in `[0, i]`. */
  function Partner(rand: nat -> Unit, i: nat): (j: nat)
    ensures j <= i
  {
    ScaledIndex(rand(i), i + 1)
  }

  /** The swaps for positions `i, i - 1, ..., 1`, where `rand(i)` is the draw at position `i`. */
  function ShuffleFrom<T>(s: seq<T>, i: nat, rand: nat -> Unit): seq<T>
    requires i < |s|
    decreases i
  {
    if i == 0 then s else ShuffleFrom(Swap(s, i, Partner(rand, i)), i - 1, rand)
  }

  /** The order `shuffleUrls` leaves a list in. */
  function Shuffled<T>(s: seq<T>, rand: nat -> Unit): seq<T> {
    if |s| == 0 then s else ShuffleFrom(s, |s| - 1, rand)
  }

  /** Each swap keeps the elements, so the shuffle is a permutation of its input. */
  lemma {:induction false} ShuffleFromPermutes<T>(s: seq<T>, i: nat, rand: nat -> Unit)
    requires i < |s|
    ensures |ShuffleFrom(s, i, rand)| == |s|
    ensures multiset(ShuffleFrom(s, i, rand)) == multiset(s)
    decreases i
  {
    if i > 0 {
      SwapPermutes(s, i, Partner(rand, i));
      ShuffleFromPermutes(Swap(s, i, Partner(rand, i)), i - 1, rand);
    }
  }

  lemma ShuffledPermutes<T>(s: seq<T>, rand: nat -> Unit)
    ensures |Shuffled(s, rand)| == |s|
    ensures multiset(Shuffled(s, rand)) == multiset(s)
  {
    if |s| > 0 {
      ShuffleFromPermutes(s, |s| - 1, rand);
    }
  }

  /** `shuffleUrls(urls)`: swaps inside a fresh copy, from the last position down to 1, and
      leaves the caller's array as it was. */
  method ShuffleUrls(urls: array<string>, rand: nat -> Unit) returns (shuffled: array<string>)
    ensures fresh(shuffled)
    ensures shuffled[..] == Shuffled(urls[..], rand)
    ensures multiset(shuffled[..]) == multiset(urls[..])
  {
    shuffled := new string[urls.Length](k requires 0 <= k < urls.Length reads urls => urls[k]);
    assert shuffled[..] == urls[..];
    ghost var goal := Shuffled(urls[..], rand);
    var i := shuffled.Length - 1;
    while i > 0
      invariant -1 <= i < shuffled.Length
      invariant i == -1 <==> shuffled.Length == 0
      invariant i >= 0 ==> ShuffleFrom(shuffled[..], i, rand) == goal
      modifies shuffled
    {
      var j := Partner(rand, i);
      ghost var before := shuffled[..];
      SwapAt(shuffled, i, j);
      assert ShuffleFrom(before, i, rand) == ShuffleFrom(shuffled[..], i - 1, rand);
      i := i - 1;
    }
    ShuffledPermutes(urls[..], rand);
  }

  /** `[a[i], a[j]] = [a[j], a[i]]` on an array. */
  method SwapAt<T>(a: array<T>, i: nat, j: nat)
    requires i < a.Length && j < a.Length
    modifies a
    ensures a[..] == Swap(old(a[..]), i, j)
  {
    a[i], a[j] := a[j], a[i];
  }

  /** `saveUrlList(urls, filename)`: the text written, the URLs joined by line feeds. */
  function UrlListText(urls: seq<string>): string {
    Join(urls, '\n')
  }

  /** Splitting a saved list on line feeds gives the list back, when it is not empty and no
      URL holds a line feed; the empty list is saved as the empty text. */
  lemma UrlListRoundTrip(urls: seq<string>)
    ensures |urls| >= 1 && (forall k :: 0 <= k < |urls| ==> '\n' !in urls[k]) ==>
              Split(UrlListText(urls), '\n') == urls
    ensures |urls| == 0 ==> UrlListText(urls) == ""
  {
    if |urls| >= 1 && forall k :: 0 <= k < |urls| ==> '\n' !in urls[k] {
      SplitJoin(urls, '\n');
    }
  }
}
