/** `FaselSearcher::_search` after the page is parsed: post cards and poster images are
    paired by position, at most nine of each, and a card without a link is skipped. */
module Fasel {
  import opened Wrappers
  import opened Text
  import opened Seqs
  import opened Json
  import opened Netflix

  /** A `div.postDiv` card: the `href` (if any) of each `a` inside it, in document order,
      and the text of each `div.h1` inside it. */
  datatype PostDiv = PostDiv(anchorHrefs: seq<Option<string>>, titleTexts: seq<string>)

  /** A `div.imgdiv-class img` element: its `data-src` attribute, if any. */
  datatype Image = Image(dataSrc: Option<string>)

  const MaxResults: nat := 9

  /** The Arabic block U+0600 to U+06FF, what `[؀-ۿ]+` matches. */
  predicate IsArabic(c: char) {
    '؀' <= c <= 'ۿ'
  }

  predicate KeptChar(c: char) {
    !IsArabic(c)
  }

  /** `replace_all` with `""`: every Arabic-block character removed, the rest kept in
      order. */
  function StripArabic(s: string): (r: string)
    ensures |r| <= |s|
    ensures forall i :: 0 <= i < |r| ==> !IsArabic(r[i])
  {
    Filter(s, KeptChar)
  }

  /** The display name: the trimmed text of the first title, or `Unknown`, then stripped. */
  function CleanName(div: PostDiv): string {
    StripArabic(if div.titleTexts == [] then "Unknown" else Trim(div.titleTexts[0]))
  }

  /** Every Fasel entry carries the same fixed classification. */
  const FaselShow: ShowResult := ShowResult(MovieIdData("0"), false)

  /** The link of a card: the `href` of its first anchor. */
  function Link(div: PostDiv): Option<string> {
    if div.anchorHrefs == [] then None else div.anchorHrefs[0]
  }

  predicate Linked(pair: (PostDiv, Image)) {
    Link(pair.0).Some?
  }

  /** The entry a linked card and its image give. */
  function MakeEntry(pair: (PostDiv, Image)): SearchEntry
    requires Linked(pair)
  {
    SearchEntry(Link(pair.0).value, pair.1.dataSrc.GetOr(""), CleanName(pair.0), FaselShow)
  }

  /** One pass of the loop body: an entry for a linked card, nothing otherwise. */
  function PairEntries(pair: (PostDiv, Image)): seq<SearchEntry> {
    if Linked(pair) then [MakeEntry(pair)] else []
  }

  /** `movies.take(9).zip(images.take(9))` */
  function Pairs(divs: seq<PostDiv>, images: seq<Image>): (ps: seq<(PostDiv, Image)>)
    ensures |ps| == Min(Min(|divs|, |images|), MaxResults)
    ensures forall i :: 0 <= i < |ps| ==> ps[i] == (divs[i], images[i])
  {
    var n := Min(Min(|divs|, |images|), MaxResults);
    seq(n, i requires 0 <= i < n => (divs[i], images[i]))
  }

  function Min(a: nat, b: nat): nat {
    if a <= b then a else b
  }

  /** The results of a search whose page had `divs` and `images`. */
  function Results(divs: seq<PostDiv>, images: seq<Image>): seq<SearchEntry> {
    FlatMap(Pairs(divs, images), PairEntries)
  }

  /** The search's loop over the paired elements. */
  method Search(divs: seq<PostDiv>, images: seq<Image>) returns (results: seq<SearchEntry>)
    ensures results == Results(divs, images)
  {
    var pairs := Pairs(divs, images);
    results := [];
    var i := 0;
    while i < |pairs|
      invariant 0 <= i <= |pairs|
      invariant results == FlatMap(pairs[..i], PairEntries)
    {
      var div, img := pairs[i].0, pairs[i].1;
      assert pairs[..i + 1] == pairs[..i] + [pairs[i]];
      FlatMapAppend(pairs[..i], [pairs[i]], PairEntries);
      FlatMapSingle(pairs[i], PairEntries);
      var link := if div.anchorHrefs == [] then None else div.anchorHrefs[0];
      if link.Some? {
        var name := if div.titleTexts == [] then "Unknown" else Trim(div.titleTexts[0]);
        var cleanedName := StripArabic(name);
        var imgSrc := img.dataSrc.GetOr("");
        results := results + [SearchEntry(link.value, imgSrc, cleanedName, FaselShow)];
      }
      i := i + 1;
    }
    assert pairs[..i] == pairs;
  }

  /** The entries are exactly the linked pairs, in order, each made from its own card and
      its own image. */
  lemma {:induction false} ResultsAreLinkedPairs(ps: seq<(PostDiv, Image)>)
    ensures FlatMap(ps, PairEntries) == Map(Filter(ps, Linked), MakeEntryTotal)
  {
    if ps != [] {
      ResultsAreLinkedPairs(ps[1..]);
      var rest := Filter(ps[1..], Linked);
      if Linked(ps[0]) {
        MapCons(ps[0], rest, MakeEntryTotal);
      } else {
        assert Filter(ps, Linked) == rest;
      }
    }
  }

  /** `MakeEntry`, extended to unlinked pairs so that it can be mapped. */
  function MakeEntryTotal(pair: (PostDiv, Image)): SearchEntry {
    if Linked(pair) then MakeEntry(pair) else SearchEntry("", "", "", FaselShow)
  }

  lemma MapCons<T, U>(x: T, xs: seq<T>, f: T -> U)
    ensures Map([x] + xs, f) == [f(x)] + Map(xs, f)
  {
    assert ([x] + xs)[1..] == xs;
  }

  /** At most nine entries, and never more than there are cards or images. */
  lemma ResultsBounded(divs: seq<PostDiv>, images: seq<Image>)
    ensures |Results(divs, images)| <= MaxResults
    ensures |Results(divs, images)| <= |divs| && |Results(divs, images)| <= |images|
  {
    ResultsAreLinkedPairs(Pairs(divs, images));
  }

  /** Every entry has a card's link, a name free of Arabic characters, and the fixed
      non-show classification. */
  lemma ResultsShape(divs: seq<PostDiv>, images: seq<Image>)
    ensures forall e :: e in Results(divs, images) ==>
      && e.show == FaselShow
      && (forall i :: 0 <= i < |e.displayString| ==> !IsArabic(e.displayString[i]))
      && (exists k :: 0 <= k < |divs| && Link(divs[k]) == Some(e.url))
  {
    var ps := Pairs(divs, images);
    ResultsAreLinkedPairs(ps);
    var linked := Filter(ps, Linked);
    forall e | e in Results(divs, images)
      ensures e.show == FaselShow
      ensures forall i :: 0 <= i < |e.displayString| ==> !IsArabic(e.displayString[i])
      ensures exists k :: 0 <= k < |divs| && Link(divs[k]) == Some(e.url)
    {
      var j :| 0 <= j < |linked| && e == MakeEntryTotal(linked[j]);
      assert Linked(linked[j]);
      FilterMember(ps, Linked, linked[j]);
      var k :| 0 <= k < |ps| && ps[k] == linked[j];
      assert divs[k] == linked[j].0;
    }
  }

  /** What `Filter` keeps is drawn from the input. */
  lemma {:induction false} FilterMember<T>(xs: seq<T>, p: T -> bool, x: T)
    requires x in Filter(xs, p)
    ensures exists k :: 0 <= k < |xs| && xs[k] == x
  {
    if xs != [] && !(p(xs[0]) && x == xs[0]) {
      FilterMember(xs[1..], p, x);
      var k :| 0 <= k < |xs[1..]| && xs[1..][k] == x;
      assert xs[k + 1] == x;
    }
  }

  /** A card without a link yields nothing, and its image goes with it: the entries
      before it and after it are those of the pairs on either side. */
  lemma SkippedCardConsumesImage(divs: seq<PostDiv>, images: seq<Image>, k: nat)
    requires k < |Pairs(divs, images)| && Link(divs[k]).None?
    ensures Results(divs, images)
         == FlatMap(Pairs(divs, images)[..k], PairEntries)
          + FlatMap(Pairs(divs, images)[k + 1..], PairEntries)
  {
    var ps := Pairs(divs, images);
    assert ps == ps[..k] + [ps[k]] + ps[k + 1..];
    FlatMapAppend(ps[..k] + [ps[k]], ps[k + 1..], PairEntries);
    FlatMapAppend(ps[..k], [ps[k]], PairEntries);
    FlatMapSingle(ps[k], PairEntries);
  }

  /** Stripping distributes over concatenation and leaves text without Arabic characters
      alone. */
  lemma StripArabicAppend(a: string, b: string)
    ensures StripArabic(a + b) == StripArabic(a) + StripArabic(b)
  {
    FilterAppend(a, b, KeptChar);
  }

  lemma {:induction false} StripArabicKeepsOthers(s: string)
    requires forall i :: 0 <= i < |s| ==> !IsArabic(s[i])
    ensures StripArabic(s) == s
  {
    if s != [] {
      StripArabicKeepsOthers(s[1..]);
    }
  }

  lemma StripArabicIdempotent(s: string)
    ensures StripArabic(StripArabic(s)) == StripArabic(s)
  {
    StripArabicKeepsOthers(StripArabic(s));
  }

  /** Trimming comes first, so a title that starts with an Arabic word followed by a
      space keeps that space: `"ف X"` becomes `" X"`. */
  lemma TrimBeforeStrip(div: PostDiv, c: char, x: char)
    requires div.titleTexts != [] && div.titleTexts[0] == [c, ' ', x]
    requires IsArabic(c) && !IsArabic(x) && !IsWhitespace(x)
    ensures CleanName(div) == [' ', x]
  {
    ArabicIsNotWhitespace(c);
    TrimUnchanged([c, ' ', x]);
    StripLeadingArabic(c, x);
  }

  lemma StripLeadingArabic(c: char, x: char)
    requires IsArabic(c) && !IsArabic(x)
    ensures StripArabic([c, ' ', x]) == [' ', x]
  {
    FilterSingle(c, KeptChar);
    FilterSingle(' ', KeptChar);
    FilterSingle(x, KeptChar);
    StripArabicAppend([c], [' ']);
    assert StripArabic([c, ' ']) == [' '] by {
      assert [c, ' '] == [c] + [' '];
    }
    StripArabicAppend([c, ' '], [x]);
    assert [c, ' ', x] == [c, ' '] + [x];
  }

  lemma ArabicIsNotWhitespace(c: char)
    requires IsArabic(c)
    ensures !IsWhitespace(c)
  {
  }
}
