/**
 * The local matcher (`_check_patterns`): a case-insensitive substring scan of
 * the prompt against every catalog phrase and every safe phrase.
 */
module Matcher {
  import opened Text
  import opened Patterns

  /** One (category, phrase) pair of the flattened catalog. */
  datatype Entry = Entry(category: string, phrase: string)

  /** The matcher's result: the capped score and the matched entries as text. */
  datatype LocalSignal = LocalSignal(score: int, patterns: seq<string>)

  /** Points added per matched catalog phrase. */
  const HitPoints := 20
  /** Points removed per safe phrase found. */
  const SafePenalty := 10
  /** Upper cap of the local score; there is no lower cap. */
  const ScoreCap := 100

  function Pairs(c: Category): seq<Entry>
  {
    seq(|c.phrases|, j requires 0 <= j < |c.phrases| => Entry(c.name, c.phrases[j]))
  }

  /** The catalog flattened into its entries, in the order the matcher visits them. */
  function Entries(cats: seq<Category>): seq<Entry>
  {
    if cats == [] then [] else Entries(cats[..|cats| - 1]) + Pairs(cats[|cats| - 1])
  }

  /** The text recorded for a matched entry: `"<category>: <phrase>"`. */
  function Render(e: Entry): string
  {
    e.category + ": " + e.phrase
  }

  /** The lower-cased phrase occurs in the (already lower-cased) text. */
  predicate Matches(text: string, phrase: string)
  {
    Contains(text, ToLower(phrase))
  }

  /** No entry of `es` has a phrase occurring in `text`. */
  predicate NoneMatch(es: seq<Entry>, text: string)
  {
    forall i :: 0 <= i < |es| ==> !Matches(text, es[i].phrase)
  }

  /** The rendered entries whose phrase occurs in `text`, in entry order. */
  function Hits(es: seq<Entry>, text: string): seq<string>
  {
    if es == [] then []
    else
      var last := es[|es| - 1];
      Hits(es[..|es| - 1], text) + (if Matches(text, last.phrase) then [Render(last)] else [])
  }

  /** The positions in `es` of the entries that `Hits` reports. */
  ghost function HitIndices(es: seq<Entry>, text: string): seq<nat>
  {
    if es == [] then []
    else HitIndices(es[..|es| - 1], text) + (if Matches(text, es[|es| - 1].phrase) then [|es| - 1] else [])
  }

  /** How many of the phrases `ps` occur in `text`. */
  function SafeHits(ps: seq<string>, text: string): nat
  {
    if ps == [] then 0
    else SafeHits(ps[..|ps| - 1], text) + (if Matches(text, ps[|ps| - 1]) then 1 else 0)
  }

  /** `min(score, 100)`. */
  function Cap(score: int): int
  {
    if score < ScoreCap then score else ScoreCap
  }

  /**
   * The local signal of a prompt against a catalog `cats` and safe-phrase list
   * `safe`, as `_check_patterns` computes it: 20 points per matched catalog
   * entry, minus 10 per safe phrase found, capped above at 100 but not below.
   */
  function Scan(cats: seq<Category>, safe: seq<string>, prompt: string): (r: LocalSignal)
    ensures r.patterns == [] <==> NoneMatch(Entries(cats), ToLower(prompt))
    ensures -SafePenalty * |safe| <= r.score <= ScoreCap
    ensures r.score % 10 == 0
  {
    var promptLower := ToLower(prompt);
    var patterns := Hits(Entries(cats), promptLower);
    NoHitsIffNoMatch(Entries(cats), promptLower);
    SafeHitsAtMost(safe, promptLower);
    LocalSignal(Cap(HitPoints * |patterns| - SafePenalty * SafeHits(safe, promptLower)), patterns)
  }

  /**
   * `_check_patterns` itself: the scan against the detector's own tables.
   * With fifteen safe phrases the local score lies between -150 and 100.
   */
  function LocalMatch(prompt: string): (r: LocalSignal)
    ensures r.patterns == [] <==> NoneMatch(Entries(InjectionPatterns), ToLower(prompt))
    ensures -150 <= r.score <= ScoreCap && r.score % 10 == 0
  {
    Scan(InjectionPatterns, SafePatterns, prompt)
  }

  /**
   * The nested loops of `_check_patterns`: categories in order, phrases in
   * order within each, then the safe phrases; they compute exactly `Scan`.
   */
  method CheckPatterns(cats: seq<Category>, safe: seq<string>, prompt: string) returns (signal: LocalSignal)
    ensures signal == Scan(cats, safe, prompt)
  {
    var promptLower := ToLower(prompt);
    var detected: seq<string> := [];
    var score := 0;
    var c := 0;
    while c < |cats|
      invariant 0 <= c <= |cats|
      invariant detected == Hits(Entries(cats[..c]), promptLower)
      invariant score == HitPoints * |detected|
    {
      var category := cats[c];
      var done := Entries(cats[..c]);
      var j := 0;
      assert done + Pairs(category)[..j] == done;
      while j < |category.phrases|
        invariant 0 <= j <= |category.phrases|
        invariant detected == Hits(done + Pairs(category)[..j], promptLower)
        invariant score == HitPoints * |detected|
      {
        var seen := done + Pairs(category)[..j + 1];
        assert seen[..|seen| - 1] == done + Pairs(category)[..j];
        assert seen[|seen| - 1] == Entry(category.name, category.phrases[j]);
        if Contains(promptLower, ToLower(category.phrases[j])) {
          detected := detected + [category.name + ": " + category.phrases[j]];
          score := score + HitPoints;
        }
        j := j + 1;
      }
      assert Pairs(category)[..j] == Pairs(category);
      assert cats[..c + 1][..c] == cats[..c];
      c := c + 1;
    }
    assert cats[..c] == cats;
    var s := 0;
    while s < |safe|
      invariant 0 <= s <= |safe|
      invariant score == HitPoints * |detected| - SafePenalty * SafeHits(safe[..s], promptLower)
    {
      assert safe[..s + 1][..s] == safe[..s];
      if Contains(promptLower, ToLower(safe[s])) {
        score := score - SafePenalty;
      }
      s := s + 1;
    }
    assert safe[..s] == safe;
    signal := LocalSignal(if score < ScoreCap then score else ScoreCap, detected);
  }

  /**
   * The reported patterns are exactly the matching entries, each once, in
   * catalog order: the k-th pattern renders the entry at the k-th position of
   * a strictly increasing list of positions, and a position is on that list
   * exactly when its phrase occurs in the text. Overlapping phrases each count.
   */
  lemma {:induction false} HitsInCatalogOrder(es: seq<Entry>, text: string)
    ensures |HitIndices(es, text)| == |Hits(es, text)|
    ensures forall k :: 0 <= k < |HitIndices(es, text)| ==>
      HitIndices(es, text)[k] < |es| && Hits(es, text)[k] == Render(es[HitIndices(es, text)[k]])
    ensures forall k, l :: 0 <= k < l < |HitIndices(es, text)| ==> HitIndices(es, text)[k] < HitIndices(es, text)[l]
    ensures forall i :: 0 <= i < |es| ==> (Matches(text, es[i].phrase) <==> i in HitIndices(es, text))
  {
    if es != [] {
      var init := es[..|es| - 1];
      HitsInCatalogOrder(init, text);
      var ix, hs := HitIndices(es, text), Hits(es, text);
      var ix0, hs0 := HitIndices(init, text), Hits(init, text);
      assert forall k :: 0 <= k < |ix0| ==> ix[k] == ix0[k] && hs[k] == hs0[k];
      forall i | 0 <= i < |es|
        ensures Matches(text, es[i].phrase) <==> i in ix
      {
        if i < |es| - 1 {
          assert es[i] == init[i];
          assert i in ix <==> i in ix0;
        }
      }
    }
  }

  /** No pattern is reported exactly when no entry's phrase occurs in the text. */
  lemma {:induction false} NoHitsIffNoMatch(es: seq<Entry>, text: string)
    ensures Hits(es, text) == [] <==> NoneMatch(es, text)
  {
    HitsInCatalogOrder(es, text);
    if Hits(es, text) == [] {
      assert HitIndices(es, text) == [];
    } else {
      var i := HitIndices(es, text)[0];
      assert Matches(text, es[i].phrase);
    }
  }

  lemma {:induction false} SafeHitsAtMost(ps: seq<string>, text: string)
    ensures SafeHits(ps, text) <= |ps|
  {
    if ps != [] {
      SafeHitsAtMost(ps[..|ps| - 1], text);
    }
  }

  /** A safe-phrase count of zero means none of the phrases occurs, and conversely. */
  lemma {:induction false} NoSafeHitsIffNoMatch(ps: seq<string>, text: string)
    ensures SafeHits(ps, text) == 0 <==> forall j :: 0 <= j < |ps| ==> !Matches(text, ps[j])
  {
    if ps != [] {
      var init := ps[..|ps| - 1];
      NoSafeHitsIffNoMatch(init, text);
      assert forall j :: 0 <= j < |init| ==> ps[j] == init[j];
    }
  }

  lemma {:induction false} HitsAppend(a: seq<Entry>, b: seq<Entry>, text: string)
    ensures Hits(a + b, text) == Hits(a, text) + Hits(b, text)
    decreases |b|
  {
    if b == [] {
      assert a + b == a;
    } else {
      var b0 := b[..|b| - 1];
      assert (a + b)[..|a + b| - 1] == a + b0;
      HitsAppend(a, b0, text);
    }
  }

  /** `e` pairs some category of `cats` with one of that category's phrases. */
  ghost predicate InCatalog(cats: seq<Category>, e: Entry)
  {
    exists k, j :: 0 <= k < |cats| && 0 <= j < |cats[k].phrases| && e == Entry(cats[k].name, cats[k].phrases[j])
  }

  /** Every flattened entry comes from some category of the catalog. */
  lemma {:induction false} EntriesFromCategories(cats: seq<Category>)
    ensures forall i :: 0 <= i < |Entries(cats)| ==> InCatalog(cats, Entries(cats)[i])
  {
    if cats != [] {
      var init := cats[..|cats| - 1];
      EntriesFromCategories(init);
      forall i | 0 <= i < |Entries(cats)|
        ensures InCatalog(cats, Entries(cats)[i])
      {
        if i < |Entries(init)| {
          var k, j :| 0 <= k < |init| && 0 <= j < |init[k].phrases| &&
            Entries(init)[i] == Entry(init[k].name, init[k].phrases[j]);
          assert cats[k] == init[k];
          assert Entries(cats)[i] == Entries(init)[i];
        } else {
          var k, j := |cats| - 1, i - |Entries(init)|;
          assert Entries(cats)[i] == Pairs(cats[k])[j];
        }
      }
    }
  }

  /** The positions of `es` whose phrase occurs in `text`. */
  ghost function MatchingPositions(es: seq<Entry>, text: string): set<int>
  {
    set i | 0 <= i < |es| && Matches(text, es[i].phrase)
  }

  /** The positions of `ps` whose phrase occurs in `text`. */
  ghost function SafePositions(ps: seq<string>, text: string): set<int>
  {
    set j | 0 <= j < |ps| && Matches(text, ps[j])
  }

  lemma {:induction false} HitCount(es: seq<Entry>, text: string)
    ensures |Hits(es, text)| == |MatchingPositions(es, text)|
  {
    if es != [] {
      var init, n := es[..|es| - 1], |es| - 1;
      HitCount(init, text);
      var now, before := MatchingPositions(es, text), MatchingPositions(init, text);
      forall i
        ensures i in now <==> i in before || (i == n && Matches(text, es[n].phrase))
      {
        if 0 <= i < n {
          assert es[i] == init[i];
        }
      }
      if Matches(text, es[n].phrase) {
        assert now == before + {n};
      } else {
        assert now == before;
      }
    }
  }

  lemma {:induction false} SafeCount(ps: seq<string>, text: string)
    ensures SafeHits(ps, text) == |SafePositions(ps, text)|
  {
    if ps != [] {
      var init, n := ps[..|ps| - 1], |ps| - 1;
      SafeCount(init, text);
      var now, before := SafePositions(ps, text), SafePositions(init, text);
      forall j
        ensures j in now <==> j in before || (j == n && Matches(text, ps[n]))
      {
        if 0 <= j < n {
          assert ps[j] == init[j];
        }
      }
      if Matches(text, ps[n]) {
        assert now == before + {n};
      } else {
        assert now == before;
      }
    }
  }

  /**
   * The local score counts catalog positions, not distinct phrases or
   * categories: it is `min(20 * matching entries - 10 * safe phrases found, 100)`,
   * whatever the categories' severities.
   */
  lemma LocalScoreCounts(cats: seq<Category>, safe: seq<string>, prompt: string)
    ensures Scan(cats, safe, prompt).score ==
      Cap(HitPoints * |MatchingPositions(Entries(cats), ToLower(prompt))|
          - SafePenalty * |SafePositions(safe, ToLower(prompt))|)
  {
    HitCount(Entries(cats), ToLower(prompt));
    SafeCount(safe, ToLower(prompt));
  }

  /** The empty prompt matches nothing and scores 0, because no catalog phrase is empty. */
  lemma EmptyPromptScoresZero()
    ensures LocalMatch("") == LocalSignal(0, [])
  {
    var es := Entries(InjectionPatterns);
    EntriesFromCategories(InjectionPatterns);
    CatalogNonEmpty();
    assert ToLower("") == "";
    forall i | 0 <= i < |es|
      ensures !Matches("", es[i].phrase)
    {
      ContainsInEmpty(ToLower(es[i].phrase));
    }
    forall j | 0 <= j < |SafePatterns|
      ensures !Matches("", SafePatterns[j])
    {
      ContainsInEmpty(ToLower(SafePatterns[j]));
    }
    NoSafeHitsIffNoMatch(SafePatterns, "");
  }
}
