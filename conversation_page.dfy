/**
 * The deterministic drink reply engine of the conversation page: text
 * normalisation, a prioritised keyword table over five drinks, the choice of
 * an alternative drink, the phrase builders and the three top replies, plus
 * the page state that `resetName` and `clearHeardQuestion` update.
 */
module ConversationPage {
  import opened Wrappers
  import opened JsString

  // ---------------------------------------------------------------------
  // normalise
  // ---------------------------------------------------------------------

  /** The regular-expression class `\w` (no `u` flag): ASCII letters, digits and `_`. */
  predicate IsWordChar(c: char) {
    ('a' <= c <= 'z') || ('A' <= c <= 'Z') || ('0' <= c <= '9') || c == '_'
  }

  /** `.replace(/[^\w\s]/g, " ")`: every character that is neither a word character nor white space becomes a space. */
  function MaskPunctuation(s: string): (r: string)
    ensures |r| == |s|
    ensures forall i :: 0 <= i < |r| ==> r[i] == (if IsWordChar(s[i]) || IsWhite(s[i]) then s[i] else ' ')
  {
    seq(|s|, i requires 0 <= i < |s| => if IsWordChar(s[i]) || IsWhite(s[i]) then s[i] else ' ')
  }

  /** No two adjacent spaces. */
  predicate NoDoubleSpace(s: string) {
    forall i :: 0 <= i < |s| - 1 ==> !(s[i] == ' ' && s[i + 1] == ' ')
  }

  /** Every character is a normal one or white space: what masking a lower-cased string leaves. */
  predicate NormalOrWhite(s: string) {
    forall i :: 0 <= i < |s| ==> NormalChar(s[i]) || IsWhite(s[i])
  }

  /** `.replace(/\s+/g, " ")`: every maximal run of white space becomes one space. */
  function CollapseWhite(s: string): (r: string)
    ensures NormalOrWhite(s) ==> forall i :: 0 <= i < |r| ==> NormalChar(r[i])
    ensures NoDoubleSpace(r)
    ensures s != [] ==> r != [] && r[0] == (if IsWhite(s[0]) then ' ' else s[0])
    decreases |s|
  {
    if s == [] then []
    else if IsWhite(s[0]) then
      var rest := TrimStart(s);
      assert NormalOrWhite(s) ==> NormalOrWhite(rest) by {
        TrimStartDrops(s);
        assert forall k :: 0 <= k < |rest| ==> rest[k] == s[|s| - |rest| + k];
      }
      [' '] + CollapseWhite(rest)
    else
      assert NormalOrWhite(s) ==> NormalOrWhite(s[1..]) by {
        assert forall k :: 0 <= k < |s| - 1 ==> s[1..][k] == s[k + 1];
      }
      [s[0]] + CollapseWhite(s[1..])
  }

  /**
   * The collapse as a left-to-right scan, the way a regular-expression
   * replace walks the string: `inRun` says the previous character was white
   * space. A white character opens a run (one space is written) or continues
   * one (nothing is written); any other character is copied and closes the run.
   */
  function CollapseScan(s: string, inRun: bool): string
    decreases |s|
  {
    if s == [] then []
    else if IsWhite(s[0]) then (if inRun then [] else [' ']) + CollapseScan(s[1..], true)
    else [s[0]] + CollapseScan(s[1..], false)
  }

  /** Inside a run, the scan skips exactly the white space `trimStart` drops. */
  lemma {:induction false} ScanInRun(s: string)
    ensures CollapseScan(s, true) == CollapseScan(TrimStart(s), false)
    decreases |s|
  {
    if s != [] && IsWhite(s[0]) {
      assert CollapseScan(s, true) == [] + CollapseScan(s[1..], true);
      ScanInRun(s[1..]);
    }
  }

  /** `CollapseWhite` replaces every maximal run of white space by one space and keeps everything else. */
  lemma {:induction false} CollapseWhiteIsScan(s: string)
    ensures CollapseWhite(s) == CollapseScan(s, false)
    decreases |s|
  {
    if s != [] {
      if IsWhite(s[0]) {
        ScanInRun(s[1..]);
        assert TrimStart(s) == TrimStart(s[1..]);
        CollapseWhiteIsScan(TrimStart(s));
      } else {
        CollapseWhiteIsScan(s[1..]);
      }
    }
  }

  /** The scan keeps the words of the string, in order. */
  lemma {:induction false} ScanKeepsWords(s: string, inRun: bool)
    ensures NonWhite(CollapseScan(s, inRun)) == NonWhite(s)
    decreases |s|
  {
    if s != [] {
      ScanKeepsWords(s[1..], IsWhite(s[0]));
      var h: string := if IsWhite(s[0]) then (if inRun then [] else [' ']) else [s[0]];
      assert CollapseScan(s, inRun) == h + CollapseScan(s[1..], IsWhite(s[0]));
      NonWhiteConcat(h, CollapseScan(s[1..], IsWhite(s[0])));
      if IsWhite(s[0]) && !inRun {
        assert NonWhite(h) == NonWhite(h[1..]);
      }
    }
  }

  /** Collapsing white space keeps the words of the string, in order. */
  lemma CollapseKeepsWords(s: string)
    ensures NonWhite(CollapseWhite(s)) == NonWhite(s)
  {
    CollapseWhiteIsScan(s);
    ScanKeepsWords(s, false);
  }

  /** The characters `normalise` can produce: lower-case word characters and the space. */
  predicate NormalChar(c: char) {
    ('a' <= c <= 'z') || ('0' <= c <= '9') || c == '_' || c == ' '
  }

  /** The shape of a normalised question: normal characters, single spaces, none at either end. */
  predicate Normalised(s: string) {
    && (forall i :: 0 <= i < |s| ==> NormalChar(s[i]))
    && NoDoubleSpace(s)
    && (s == [] || (s[0] != ' ' && s[|s| - 1] != ' '))
  }

  /** `normalise`: lower-case, punctuation to spaces, white-space runs to one space, trimmed. */
  function Normalise(text: string): (r: string)
    ensures Normalised(r)
  {
    var masked := MaskPunctuation(ToLower(text));
    assert NormalOrWhite(masked) by {
      forall i | 0 <= i < |masked| ensures NormalChar(masked[i]) || IsWhite(masked[i]) {
        assert !IsAsciiUpper(ToLower(text)[i]);
      }
    }
    var collapsed := CollapseWhite(masked);
    TrimKeepsShape(collapsed);
    Trim(collapsed)
  }

  /**
   * `normalise` against the scan definition: mask, collapse every white-space
   * run to one space, then trim. Word boundaries are kept, because a run of
   * white space between two words becomes exactly one space.
   */
  lemma NormaliseIsScan(text: string)
    ensures Normalise(text) == Trim(CollapseScan(MaskPunctuation(ToLower(text)), false))
  {
    CollapseWhiteIsScan(MaskPunctuation(ToLower(text)));
  }

  /** `normalise` keeps every word character of the masked, lower-cased prompt, in order. */
  lemma NormaliseKeepsWords(text: string)
    ensures NonWhite(Normalise(text)) == NonWhite(MaskPunctuation(ToLower(text)))
  {
    var masked := MaskPunctuation(ToLower(text));
    TrimKeepsNonWhite(CollapseWhite(masked));
    CollapseKeepsWords(masked);
  }

  /** A slice keeps the character set and single spacing. */
  lemma SliceKeepsShape(s: string, lo: nat, hi: nat)
    requires lo <= hi <= |s|
    requires forall i :: 0 <= i < |s| ==> NormalChar(s[i])
    requires NoDoubleSpace(s)
    ensures forall i :: 0 <= i < hi - lo ==> NormalChar(s[lo..hi][i])
    ensures NoDoubleSpace(s[lo..hi])
  {
    forall i | 0 <= i < hi - lo ensures s[lo..hi][i] == s[lo + i] {}
  }

  /** Trimming keeps only a slice, so it keeps the character set and single spacing. */
  lemma TrimKeepsShape(s: string)
    requires forall i :: 0 <= i < |s| ==> NormalChar(s[i])
    requires NoDoubleSpace(s)
    ensures Normalised(Trim(s))
  {
    var lo, hi := TrimIsSlice(s);
    SliceKeepsShape(s, lo, hi);
  }

  lemma {:induction false} ToLowerOfNormalised(s: string)
    requires Normalised(s)
    ensures ToLower(s) == s
  {
  }

  /** On a string of single spaces and non-white characters, collapsing changes nothing. */
  lemma {:induction false} CollapseOfSingleSpaced(s: string)
    requires forall i :: 0 <= i < |s| ==> s[i] == ' ' || !IsWhite(s[i])
    requires NoDoubleSpace(s)
    ensures CollapseWhite(s) == s
    decreases |s|
  {
    if s != [] {
      if IsWhite(s[0]) {
        assert s[1..] == [] || s[1..][0] == s[1];
        TrimStartOfTrimmed(s[1..]);
        assert TrimStart(s) == s[1..];
      }
      CollapseOfSingleSpaced(s[1..]);
    }
  }

  /** A normalised question is its own normal form. */
  lemma NormaliseFixesNormalised(s: string)
    requires Normalised(s)
    ensures Normalise(s) == s
  {
    ToLowerOfNormalised(s);
    assert MaskPunctuation(s) == s;
    CollapseOfSingleSpaced(s);
    TrimOfTrimmed(s);
  }

  /** `normalise` is idempotent. */
  lemma NormaliseIdempotent(text: string)
    ensures Normalise(Normalise(text)) == Normalise(text)
  {
    NormaliseFixesNormalised(Normalise(text));
  }

  // ---------------------------------------------------------------------
  // Drinks and detectMentionedDrink
  // ---------------------------------------------------------------------

  datatype DrinkKey = Water | OrangeJuice | AppleJuice | Milk | Tea

  /** A drink tile; its icon component is presentation and is not modelled. */
  datatype Drink = Drink(key: DrinkKey, labelText: string)

  /** `DRINKS`, in the order the keyword table is scanned. */
  const DRINKS: seq<Drink> := [
    Drink(Water, "Water"),
    Drink(OrangeJuice, "Orange juice"),
    Drink(AppleJuice, "Apple juice"),
    Drink(Milk, "Milk"),
    Drink(Tea, "Tea")
  ]

  /** The keyword rule of one drink, as the table writes it, over a normalised question. */
  predicate KeyHits(d: Drink, q: string) {
    || (d.key == OrangeJuice && (Includes(q, "orange") || Includes(q, "oj") || Includes(q, "orange juice")))
    || (d.key == AppleJuice && (Includes(q, "apple") || Includes(q, "apple juice")))
    || (d.key == Water && Includes(q, "water"))
    || (d.key == Milk && Includes(q, "milk"))
    || (d.key == Tea && Includes(q, "tea"))
  }

  /** The keywords that actually decide each rule: the two-word variants are subsumed by their first word. */
  predicate MentionsKeyword(k: DrinkKey, q: string) {
    match k
    case OrangeJuice => Includes(q, "orange") || Includes(q, "oj")
    case AppleJuice => Includes(q, "apple")
    case Water => Includes(q, "water")
    case Milk => Includes(q, "milk")
    case Tea => Includes(q, "tea")
  }

  /** Each rule of the table fires exactly when one of the drink's keywords occurs. */
  lemma KeyHitsByKeywords(d: Drink, q: string)
    ensures KeyHits(d, q) <==> MentionsKeyword(d.key, q)
  {
    if Includes(q, "orange juice") {
      assert "orange" + " juice" == "orange juice";
      IncludesPrefix(q, "orange", " juice");
    }
    if Includes(q, "apple juice") {
      assert "apple" + " juice" == "apple juice";
      IncludesPrefix(q, "apple", " juice");
    }
  }

  /** `DRINKS.map(...).filter((m) => m.hits > 0)`: the drinks whose rule fires, in table order. */
  function Matching(q: string, ds: seq<Drink>): (r: seq<Drink>)
    ensures |r| <= |ds|
    ensures forall d :: d in r ==> d in ds && KeyHits(d, q)
    ensures r == [] <==> forall i :: 0 <= i < |ds| ==> !KeyHits(ds[i], q)
    ensures r != [] ==> exists i :: 0 <= i < |ds| && ds[i] == r[0] && KeyHits(ds[i], q)
                                    && forall j :: 0 <= j < i ==> !KeyHits(ds[j], q)
  {
    if ds == [] then []
    else
      var tail := Matching(q, ds[1..]);
      if KeyHits(ds[0], q) then
        [ds[0]] + tail
      else
        MatchingSkip(q, ds, tail);
        tail
  }

  /** When the first drink's rule does not fire, the first hit of the rest is the first hit overall. */
  lemma MatchingSkip(q: string, ds: seq<Drink>, tail: seq<Drink>)
    requires ds != [] && !KeyHits(ds[0], q)
    requires tail == [] <==> forall i :: 0 <= i < |ds[1..]| ==> !KeyHits(ds[1..][i], q)
    requires tail != [] ==> exists i :: 0 <= i < |ds[1..]| && ds[1..][i] == tail[0] && KeyHits(ds[1..][i], q)
                                        && forall j :: 0 <= j < i ==> !KeyHits(ds[1..][j], q)
    ensures tail == [] <==> forall i :: 0 <= i < |ds| ==> !KeyHits(ds[i], q)
    ensures tail != [] ==> exists i :: 0 <= i < |ds| && ds[i] == tail[0] && KeyHits(ds[i], q)
                                       && forall j :: 0 <= j < i ==> !KeyHits(ds[j], q)
  {
    if tail != [] {
      var i :| 0 <= i < |ds[1..]| && ds[1..][i] == tail[0] && KeyHits(ds[1..][i], q)
               && forall j :: 0 <= j < i ==> !KeyHits(ds[1..][j], q);
      assert ds[i + 1] == tail[0];
      forall j | 0 <= j < i + 1 ensures !KeyHits(ds[j], q) {
        if j > 0 { assert ds[j] == ds[1..][j - 1]; }
      }
    } else {
      forall i | 0 <= i < |ds| ensures !KeyHits(ds[i], q) {
        if i > 0 { assert ds[i] == ds[1..][i - 1]; }
      }
    }
  }

  /** The head of the filtered table for a normalised question, if any drink's rule fires. */
  function FirstMatch(q: string): (r: Option<Drink>)
    ensures r.Some? ==> r.value in DRINKS && KeyHits(r.value, q)
  {
    var matches := Matching(q, DRINKS);
    if |matches| == 0 then None else Some(matches[0])
  }

  /** `detectMentionedDrink`: the first drink in table order whose rule fires on the normalised question. */
  function DetectMentionedDrink(question: string): (r: Option<Drink>)
    ensures r.Some? ==> r.value in DRINKS
  {
    FirstMatch(Normalise(question))
  }

  /** The table's keys are distinct, so a drink is identified by its position. */
  lemma DrinksKeysDistinct()
    ensures forall i, j :: 0 <= i < j < |DRINKS| ==> DRINKS[i].key != DRINKS[j].key
  {
  }

  /** Nothing matches exactly when none of the six keywords occurs in the (normalised) question. */
  lemma NoMatchIffNoKeyword(q: string)
    ensures FirstMatch(q).None? <==>
      !(Includes(q, "orange") || Includes(q, "oj") || Includes(q, "apple")
        || Includes(q, "water") || Includes(q, "milk") || Includes(q, "tea"))
  {
    var ds := DRINKS;
    KeyHitsByKeywords(ds[0], q);
    KeyHitsByKeywords(ds[1], q);
    KeyHitsByKeywords(ds[2], q);
    KeyHitsByKeywords(ds[3], q);
    KeyHitsByKeywords(ds[4], q);
    assert (forall i :: 0 <= i < |ds| ==> !KeyHits(ds[i], q)) <==>
      (!KeyHits(ds[0], q) && !KeyHits(ds[1], q) && !KeyHits(ds[2], q) && !KeyHits(ds[3], q) && !KeyHits(ds[4], q)) by {
      assert |ds| == 5;
    }
  }

  /** The match is the i-th of `DRINKS` exactly when its rule fires and no earlier drink's does. */
  lemma {:induction false} FirstMatchInTableOrder(q: string, i: nat)
    requires i < |DRINKS|
    ensures FirstMatch(q) == Some(DRINKS[i]) <==>
      (KeyHits(DRINKS[i], q) && forall j :: 0 <= j < i ==> !KeyHits(DRINKS[j], q))
  {
    var m := Matching(q, DRINKS);
    DrinksKeysDistinct();
    if m != [] {
      var k :| 0 <= k < |DRINKS| && DRINKS[k] == m[0] && KeyHits(DRINKS[k], q)
               && forall j :: 0 <= j < k ==> !KeyHits(DRINKS[j], q);
      if KeyHits(DRINKS[i], q) && forall j :: 0 <= j < i ==> !KeyHits(DRINKS[j], q) {
        assert !(k < i) && !(i < k);
      }
      if DRINKS[k] == DRINKS[i] {
        assert k == i;
      }
    }
  }

  /** When water is mentioned, water wins whatever else is mentioned: it heads the table. */
  lemma WaterWins(q: string)
    requires Includes(q, "water")
    ensures FirstMatch(q) == Some(Drink(Water, "Water"))
  {
    FirstMatchInTableOrder(q, 0);
  }

  // ---------------------------------------------------------------------
  // pickAlternativeDrink
  // ---------------------------------------------------------------------

  /** `DRINKS.find((d) => d.key === k)`. */
  function FindDrink(ds: seq<Drink>, k: DrinkKey): (r: Option<Drink>)
    ensures r.Some? ==> r.value in ds && r.value.key == k
    ensures r.None? ==> forall d :: d in ds ==> d.key != k
  {
    if ds == [] then None
    else if ds[0].key == k then Some(ds[0])
    else FindDrink(ds[1..], k)
  }

  /** The safe order of alternatives, each looked up in `DRINKS` by key. */
  function SafeOrder(): seq<Drink>
  {
    SafeOrderIn(DRINKS)
  }

  /** The safe-order lookups over a drink table `ds` (the first entry stands in for a failed lookup). */
  function SafeOrderIn(ds: seq<Drink>): seq<Drink>
    requires ds != []
  {
    [ FindDrink(ds, OrangeJuice).GetOr(ds[0]),
      FindDrink(ds, AppleJuice).GetOr(ds[0]),
      FindDrink(ds, Water).GetOr(ds[0]),
      FindDrink(ds, Tea).GetOr(ds[0]),
      FindDrink(ds, Milk).GetOr(ds[0]) ]
  }

  /** Every lookup of the safe order succeeds: orange juice, apple juice, water, tea, milk. */
  lemma SafeOrderDrinks()
    ensures SafeOrder() == [DRINKS[1], DRINKS[2], DRINKS[0], DRINKS[4], DRINKS[3]]
  {
    var ds := DRINKS;
    assert ds[0].key == Water && ds[1].key == OrangeJuice && ds[2].key == AppleJuice;
    assert ds[3].key == Milk && ds[4].key == Tea;
    SafeOrderInTable(ds);
  }

  /** On a table keyed like `DRINKS`, each lookup finds the entry at its key's position. */
  lemma SafeOrderInTable(ds: seq<Drink>)
    requires |ds| == 5
    requires ds[0].key == Water && ds[1].key == OrangeJuice && ds[2].key == AppleJuice
    requires ds[3].key == Milk && ds[4].key == Tea
    ensures SafeOrderIn(ds) == [ds[1], ds[2], ds[0], ds[4], ds[3]]
  {
    FindFirstOfKey(ds, 1);
    FindFirstOfKey(ds, 2);
    FindFirstOfKey(ds, 0);
    FindFirstOfKey(ds, 4);
    FindFirstOfKey(ds, 3);
  }

  /** The lookup finds the first drink with the key it is given. */
  lemma {:induction false} FindFirstOfKey(ds: seq<Drink>, i: nat)
    requires i < |ds| && forall j :: 0 <= j < i ==> ds[j].key != ds[i].key
    ensures FindDrink(ds, ds[i].key) == Some(ds[i])
    decreases i
  {
    if i > 0 {
      assert ds[1..][i - 1] == ds[i];
      FindFirstOfKey(ds[1..], i - 1);
    }
  }

  /** The first drink of `order` whose key differs from the primary's, else the fallback. */
  function FirstDifferent(order: seq<Drink>, primary: Option<Drink>, fallback: Drink): Drink
  {
    if order == [] then fallback
    else if primary.None? || order[0].key != primary.value.key then order[0]
    else FirstDifferent(order[1..], primary, fallback)
  }

  /** What `pickAlternativeDrink` returns. */
  function AlternativeDrink(primary: Option<Drink>, fallback: Drink): Drink
  {
    FirstDifferent(SafeOrder(), primary, fallback)
  }

  /** `pickAlternativeDrink`: the safe order is scanned with a loop that returns early. */
  method PickAlternativeDrink(primary: Option<Drink>, fallback: Drink) returns (r: Drink)
    ensures r == AlternativeDrink(primary, fallback)
  {
    var order := SafeOrder();
    var i := 0;
    while i < |order|
      invariant 0 <= i <= |order|
      invariant FirstDifferent(order[i..], primary, fallback) == AlternativeDrink(primary, fallback)
    {
      var d := order[i];
      if primary.None? || d.key != primary.value.key {
        return d;
      }
      assert order[i..][1..] == order[i + 1..];
      i := i + 1;
    }
    return fallback;
  }

  /** Unless the primary is orange juice, the alternative is orange juice. */
  lemma AlternativeIsOrangeJuice(primary: Option<Drink>, fallback: Drink)
    requires primary.None? || primary.value.key != OrangeJuice
    ensures AlternativeDrink(primary, fallback) == Drink(OrangeJuice, "Orange juice")
  {
    SafeOrderDrinks();
  }

  /** When the primary is orange juice, the alternative is apple juice. */
  lemma AlternativeOfOrangeJuice(primary: Option<Drink>, fallback: Drink)
    requires primary.Some? && primary.value.key == OrangeJuice
    ensures AlternativeDrink(primary, fallback) == Drink(AppleJuice, "Apple juice")
  {
    SafeOrderDrinks();
    var order := SafeOrder();
    assert FirstDifferent(order, primary, fallback) == FirstDifferent(order[1..], primary, fallback);
    assert order[1..][0] == DRINKS[2];
  }

  /**
   * The alternative never shares the primary's key and always comes from `DRINKS`,
   * so the loop always returns early and the fallback is never used.
   */
  lemma AlternativeDiffers(primary: Option<Drink>, fallback: Drink, other: Drink)
    ensures primary.Some? ==> AlternativeDrink(primary, fallback).key != primary.value.key
    ensures AlternativeDrink(primary, fallback) == AlternativeDrink(primary, other)
    ensures AlternativeDrink(primary, fallback) in DRINKS
  {
    if primary.Some? && primary.value.key == OrangeJuice {
      AlternativeOfOrangeJuice(primary, fallback);
      AlternativeOfOrangeJuice(primary, other);
    } else {
      AlternativeIsOrangeJuice(primary, fallback);
      AlternativeIsOrangeJuice(primary, other);
    }
  }

  // ---------------------------------------------------------------------
  // Phrase builders
  // ---------------------------------------------------------------------

  const YES_PREFIX: string := "Yes please, I'd like "
  const INSTEAD_PREFIX: string := "Could I have "
  const INSTEAD_SUFFIX: string := " instead?"

  /** `phraseYes`. */
  function PhraseYes(item: string): (r: string)
    ensures |r| == |YES_PREFIX| + |item| + 1
    ensures r[..|YES_PREFIX|] == YES_PREFIX && r[|r| - 1] == '.'
    ensures r[|YES_PREFIX|..|r| - 1] == ToLower(item)
  {
    YES_PREFIX + ToLower(item) + "."
  }

  /** `phraseNo`: a sentence neither of the other two tiles can produce. */
  function PhraseNo(): (r: string)
    ensures |r| > 0 && r[0] == 'N'
  {
    "No thank you."
  }

  /** The "no" sentence differs from every "yes" and every "instead" sentence. */
  lemma NoIsDistinct(item: string)
    ensures PhraseNo() != PhraseYes(item) && PhraseNo() != PhraseInstead(item)
  {
    assert PhraseYes(item)[0] == YES_PREFIX[0];
    assert PhraseInstead(item)[0] == INSTEAD_PREFIX[0];
  }

  /** `phraseInstead` (conversation variant). */
  function PhraseInstead(item: string): (r: string)
    ensures |r| == |INSTEAD_PREFIX| + |item| + |INSTEAD_SUFFIX|
    ensures r[..|INSTEAD_PREFIX|] == INSTEAD_PREFIX && r[|r| - |INSTEAD_SUFFIX|..] == INSTEAD_SUFFIX
    ensures r[|INSTEAD_PREFIX|..|r| - |INSTEAD_SUFFIX|] == ToLower(item)
  {
    INSTEAD_PREFIX + ToLower(item) + INSTEAD_SUFFIX
  }

  /** The spoken sentence determines the item, up to case: two items give the same phrase only if they agree in lower case. */
  lemma {:induction false} PhrasesDetermineItem(a: string, b: string)
    ensures PhraseYes(a) == PhraseYes(b) <==> ToLower(a) == ToLower(b)
    ensures PhraseInstead(a) == PhraseInstead(b) <==> ToLower(a) == ToLower(b)
  {
    if PhraseYes(a) == PhraseYes(b) {
      assert ToLower(a) == PhraseYes(a)[|YES_PREFIX|..|PhraseYes(a)| - 1];
    }
    if PhraseInstead(a) == PhraseInstead(b) {
      assert ToLower(a) == PhraseInstead(a)[|INSTEAD_PREFIX|..|PhraseInstead(a)| - |INSTEAD_SUFFIX|];
    }
  }

  // ---------------------------------------------------------------------
  // Prompt and top replies
  // ---------------------------------------------------------------------

  /** The prompt memo: the trimmed question when it is not blank, else the default drink question. */
  function Prompt(name: string, questionText: string): (r: string)
    ensures !Blank(questionText) ==> r == Trim(questionText)
    ensures Blank(questionText) ==> r == name + ", would you like a drink?"
    ensures !Blank(r)
  {
    if !Blank(questionText) then
      TrimIdempotent(questionText);
      Trim(questionText)
    else
      var r := name + ", would you like a drink?";
      assert r[|name|] == ',';
      r
  }

  /** One of the three top reply tiles (its icon and styling are presentation). */
  datatype Reply = Reply(id: string, title: string, text: string)

  /** `mentionedDrink ?? selectedDrink`: a drink of the table when one is mentioned, else the one picked. */
  function YesDrink(prompt: string, selected: Drink): (d: Drink)
    ensures DetectMentionedDrink(prompt).Some? ==> d in DRINKS
    ensures DetectMentionedDrink(prompt).None? ==> d == selected
  {
    DetectMentionedDrink(prompt).GetOr(selected)
  }

  /** The `topReplies` memo for a prompt and the drink picked in the "more" panel. */
  function TopReplies(prompt: string, selected: Drink): (r: seq<Reply>)
    ensures |r| == 3
    ensures r[0].id == "yes" && r[1].id == "no" && r[2].id == "instead"
    ensures r[0].text == PhraseYes(YesDrink(prompt, selected).labelText)
    ensures r[1].text == PhraseNo()
    ensures r[2].text == PhraseInstead(AlternativeDrink(DetectMentionedDrink(prompt), selected).labelText)
  {
    var yes := YesDrink(prompt, selected);
    var alt := AlternativeDrink(DetectMentionedDrink(prompt), selected);
    [ Reply("yes", "Yes (" + ToLower(yes.labelText) + ")", PhraseYes(yes.labelText)),
      Reply("no", "No thanks", PhraseNo()),
      Reply("instead", alt.labelText + " instead", PhraseInstead(alt.labelText)) ]
  }

  /**
   * The "instead" tile offers a different drink from the "yes" tile exactly
   * when the prompt names a drink or the drink picked is not orange juice:
   * the alternative is computed from the mentioned drink, not the yes drink.
   */
  lemma InsteadOffersAnotherDrink(prompt: string, selected: Drink)
    ensures AlternativeDrink(DetectMentionedDrink(prompt), selected).key != YesDrink(prompt, selected).key
      <==> DetectMentionedDrink(prompt).Some? || selected.key != OrangeJuice
  {
    var m := DetectMentionedDrink(prompt);
    if m.Some? {
      AlternativeDiffers(m, selected, selected);
    } else {
      AlternativeIsOrangeJuice(m, selected);
    }
  }

  /** With nothing mentioned and orange juice picked, both tiles name orange juice. */
  lemma SameDrinkOnBothTiles(prompt: string)
    requires DetectMentionedDrink(prompt).None?
    ensures var t := TopReplies(prompt, DRINKS[1]);
      && t[0].text == PhraseYes("Orange juice")
      && t[2].text == PhraseInstead("Orange juice")
  {
    AlternativeIsOrangeJuice(None, DRINKS[1]);
  }

  /** The alternative as the comment in `pickAlternativeDrink` intends it: something other than the yes drink. */
  function IntendedAlternative(prompt: string, selected: Drink): (d: Drink)
    ensures d.key != YesDrink(prompt, selected).key
    ensures d in DRINKS
  {
    AlternativeDiffers(Some(YesDrink(prompt, selected)), selected, selected);
    AlternativeDrink(Some(YesDrink(prompt, selected)), selected)
  }

  /** The intended alternative agrees with the code whenever the prompt names a drink. */
  lemma IntendedAgreesWhenMentioned(prompt: string, selected: Drink)
    requires DetectMentionedDrink(prompt).Some?
    ensures IntendedAlternative(prompt, selected) == AlternativeDrink(DetectMentionedDrink(prompt), selected)
  {
  }

  // ---------------------------------------------------------------------
  // Page state
  // ---------------------------------------------------------------------

  /** The state of the conversation page that its handlers update. */
  class ConversationView {
    /** The `aac_name` entry of local storage. */
    var storedName: Option<string>
    var name: string
    var hasName: bool
    var nameInput: string
    var questionText: string
    var showMore: bool
    var selectedDrink: Drink

    /** The page as it mounts: the name comes from storage, and `DRINKS[0]` is selected. */
    constructor (stored: Option<string>)
      ensures storedName == stored && name == stored.GetOr("")
      ensures hasName == (stored.Some? && stored.value != "")
      ensures nameInput == "" && questionText == "" && !showMore && selectedDrink == DRINKS[0]
    {
      storedName := stored;
      name := stored.GetOr("");
      hasName := stored.Some? && stored.value != "";
      nameInput := "";
      questionText := "";
      showMore := false;
      selectedDrink := DRINKS[0];
    }

    function CurrentPrompt(): string
      reads this
    {
      Prompt(name, questionText)
    }

    /** `completeOnboarding`, up to the greeting it speaks: a blank name input changes nothing. */
    method CompleteOnboarding()
      modifies this
      ensures Blank(old(nameInput)) ==> unchanged(this)
      ensures !Blank(old(nameInput)) ==>
        && storedName == Some(Trim(old(nameInput))) && name == Trim(old(nameInput))
        && hasName && nameInput == ""
        && questionText == old(questionText) && showMore == old(showMore) && selectedDrink == old(selectedDrink)
    {
      var trimmed := Trim(nameInput);
      if trimmed == [] {
        return;
      }
      storedName := Some(trimmed);
      name := trimmed;
      hasName := true;
      nameInput := "";
    }

    /** `resetName`: forget the name and return to onboarding with no question and the panel closed. */
    method ResetName()
      modifies this
      ensures storedName == None && !hasName && name == "" && !showMore && questionText == ""
      ensures nameInput == old(nameInput) && selectedDrink == old(selectedDrink)
      ensures Blank(questionText) && CurrentPrompt() == ", would you like a drink?"
    {
      storedName := None;
      hasName := false;
      name := "";
      showMore := false;
      questionText := "";
    }

    /** `clearHeardQuestion`: the prompt falls back to the default drink question. */
    method ClearHeardQuestion()
      modifies this
      ensures questionText == ""
      ensures storedName == old(storedName) && name == old(name) && hasName == old(hasName)
      ensures nameInput == old(nameInput) && showMore == old(showMore) && selectedDrink == old(selectedDrink)
      ensures CurrentPrompt() == name + ", would you like a drink?"
    {
      questionText := "";
    }

    /** The effect on the recogniser's final text: a non-empty final text becomes the question. */
    method OnFinalText(finalText: string)
      modifies this
      ensures questionText == (if finalText != "" then finalText else old(questionText))
      ensures storedName == old(storedName) && name == old(name) && hasName == old(hasName)
      ensures nameInput == old(nameInput) && showMore == old(showMore) && selectedDrink == old(selectedDrink)
    {
      if finalText != "" {
        questionText := finalText;
      }
    }
  }
}
