/** Merging the words of the extra vocabulary pass into those of the main analysis
    (`articles/usecase.go`). */
module MergeWords {
  import opened Dedup
  import opened Strings

  datatype AnalyzedWord = AnalyzedWord(lemmaText: string, surfaceForm: string, translation: string)

  /** Words are alike when their lemmas are, up to case. */
  function KeyOf(fold: char -> char): AnalyzedWord -> string {
    (w: AnalyzedWord) => ToLower(fold, w.lemmaText)
  }

  /** The words of `extra` that are new, each at its first occurrence. */
  ghost function NewWords(fold: char -> char, primary: seq<AnalyzedWord>, extra: seq<AnalyzedWord>): seq<AnalyzedWord> {
    Firsts(extra, KeyOf(fold), Keys(primary, KeyOf(fold)))
  }

  /** How many of `available` new words are appended: the limit is looked at only after a word
      has been appended, so one always is. */
  function Room(size: nat, available: nat, limit: int): (n: nat)
    ensures n <= available
  {
    if limit <= 0 then available
    else if limit - size < 1 then Min(1, available)
    else Min(limit - size, available)
  }

  /** The first loop of `mergeWords`. */
  method SeenLemmas(fold: char -> char, primary: seq<AnalyzedWord>) returns (seen: set<string>)
    ensures seen == Keys(primary, KeyOf(fold))
  {
    ghost var key := KeyOf(fold);
    seen := {};
    for i := 0 to |primary|
      invariant seen == Keys(primary[..i], key)
    {
      FirstsStep(primary, i, key, {});
      seen := seen + {ToLower(fold, primary[i].lemmaText)};
    }
    assert primary[..|primary|] == primary;
  }

  /** `mergeWords`. */
  method MergeWords(fold: char -> char, primary: seq<AnalyzedWord>, extra: seq<AnalyzedWord>, limit: int)
    returns (merged: seq<AnalyzedWord>)
    ensures var news := NewWords(fold, primary, extra);
            merged == primary + news[..Room(|primary|, |news|, limit)]
  {
    ghost var key, before := KeyOf(fold), Keys(primary, KeyOf(fold));
    var seen := SeenLemmas(fold, primary);
    merged := primary;
    ghost var added := [];
    var i := 0;
    while i < |extra|
      invariant 0 <= i <= |extra|
      invariant seen == before + Keys(extra[..i], key)
      invariant merged == primary + added && added == Firsts(extra[..i], key, before)
      invariant limit > 0 && added != [] ==> |merged| < limit
    {
      FirstsStepSeen(extra, i, key, before, seen);
      var k := ToLower(fold, extra[i].lemmaText);
      assert k == key(extra[i]);
      if k in seen {
        i := i + 1;
        continue;
      }
      seen := seen + {k};
      Append(primary, added, extra[i]);
      merged := merged + [extra[i]];
      added := added + [extra[i]];
      i := i + 1;
      if limit > 0 && |merged| >= limit {
        break;
      }
    }
    AddedFillsRoom(fold, primary, extra, i, limit);
  }

  /** Where the loop stops, the new words met so far fill the room there was. */
  lemma AddedFillsRoom(fold: char -> char, primary: seq<AnalyzedWord>, extra: seq<AnalyzedWord>, i: nat, limit: int)
    requires i <= |extra|
    requires var n := |NewWords(fold, primary, extra[..i])|;
             && (limit > 0 && n > 1 ==> |primary| + n <= limit)
             && (i == |extra| || (limit > 0 && n > 0 && |primary| + n >= limit))
    ensures var news := NewWords(fold, primary, extra);
            NewWords(fold, primary, extra[..i]) == news[..Room(|primary|, |news|, limit)]
  {
    FirstsGrow(extra, i, KeyOf(fold), Keys(primary, KeyOf(fold)));
    assert i == |extra| ==> extra[..i] == extra;
  }

  /** What a merged list is: the primary words, then new ones with pairwise different lemmas; and
      if it stopped below the limit, no new lemma was left out. */
  lemma MergedMeaning(fold: char -> char, primary: seq<AnalyzedWord>, extra: seq<AnalyzedWord>, limit: int)
    ensures var news := NewWords(fold, primary, extra);
            var key, added := KeyOf(fold), news[..Room(|primary|, |news|, limit)];
            && (forall i, j | 0 <= i < j < |added| :: key(added[i]) != key(added[j]))
            && (forall i | 0 <= i < |added| :: added[i] in extra && key(added[i]) !in Keys(primary, key))
            && (limit <= 0 || |primary + added| < limit
                ==> Keys(primary + added, key) == Keys(primary, key) + Keys(extra, key))
  {
    var news := NewWords(fold, primary, extra);
    var key, added := KeyOf(fold), news[..Room(|primary|, |news|, limit)];
    FirstsMeaning(extra, key, Keys(primary, key));
    if limit <= 0 || |primary + added| < limit {
      assert added == news;
      KeysOfConcat(primary, added, key);
    }
  }

  /** The cap is exceeded, by exactly the words already over it and one more, when the primary
      list has reached the limit and there is a new word; otherwise it is kept. */
  lemma CapHoldsIff(fold: char -> char, primary: seq<AnalyzedWord>, extra: seq<AnalyzedWord>, limit: int)
    requires limit > 0
    ensures var news := NewWords(fold, primary, extra);
            var size := |primary + news[..Room(|primary|, |news|, limit)]|;
            && (size <= limit <==> |primary| < limit || (|primary| == limit && news == []))
            && size <= if limit > |primary| then limit else |primary| + 1
  {
  }

  /** A full list of one word and one new word: the merged list is over its limit of one. */
  lemma CapMayBeExceeded(fold: char -> char, a: AnalyzedWord, b: AnalyzedWord)
    requires KeyOf(fold)(a) != KeyOf(fold)(b)
    ensures var news := NewWords(fold, [a], [b]);
            |[a] + news[..Room(1, |news|, 1)]| == 2
  {
    FirstsStep([b], 0, KeyOf(fold), Keys([a], KeyOf(fold)));
    assert [b][..1] == [b] && [b][..0] == [];
  }
}
