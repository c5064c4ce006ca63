/** The word-picture match (src/components/WordPictureMatch.tsx): 53 items in
    six categories; the learner selects a word and a picture, the pair is
    checked, a right pair is stored in the `matches` dictionary, and the game
    announces completion when the shown category appears to be complete. */
module WordPictureMatch {
  import opened Common
  import opened Decimal
  import opened Topics

  /** The category selector: `'all'` or one category. */
  datatype Filter = All | Only(category: Category)

  /** A match item: its id and its category (the word is only spoken and the
      image only shown, so neither is part of the model). */
  datatype MatchItem = MatchItem(id: string, category: Category)

  /** `matchItems.length`. */
  const ItemCount := VocabularySize

  /** `matchItems`. */
  function Items(): (items: seq<MatchItem>)
    ensures |items| == ItemCount
  {
    seq(ItemCount, i requires 0 <= i < ItemCount => MatchItem(NatToString(i + 1), CategoryOf(i + 1)))
  }

  function IdsOf(items: seq<MatchItem>): (ids: seq<string>)
    ensures |ids| == |items|
    ensures forall i :: 0 <= i < |items| ==> ids[i] == items[i].id
  {
    seq(|items|, i requires 0 <= i < |items| => items[i].id)
  }

  /** No two items of the table share an id, and no id is empty. */
  lemma ItemIds()
    ensures Distinct(IdsOf(Items()))
    ensures NonEmptyIds(Items())
  {
    var ids := IdsOf(Items());
    forall i, j | 0 <= i < j < |ids| ensures ids[i] != ids[j] {
      assert ids[i] == NatToString(i + 1) && ids[j] == NatToString(j + 1);
      NatToStringInjective(i + 1, j + 1);
    }
  }

  // ---------------------------------------------------------------------------
  // Filtering and lookup

  predicate Shows(f: Filter, item: MatchItem) {
    f.All? || item.category == f.category
  }

  /** `filteredItems`: every item for `'all'`, otherwise
      `matchItems.filter(item => item.category === currentCategory)`. */
  function Filtered(items: seq<MatchItem>, f: Filter): (r: seq<MatchItem>)
    ensures |r| <= |items|
  {
    if |items| == 0 then []
    else (if Shows(f, items[0]) then [items[0]] else []) + Filtered(items[1..], f)
  }

  /** The shown items are exactly the items that pass the filter. */
  lemma {:induction false} FilteredMembers(items: seq<MatchItem>, f: Filter, x: MatchItem)
    ensures x in Filtered(items, f) <==> x in items && Shows(f, x)
  {
    if |items| > 0 {
      FilteredMembers(items[1..], f, x);
      assert items == [items[0]] + items[1..];
    }
  }

  /** The shown items, filtered a second time by the same category, are the
      shown items. */
  lemma {:induction false} FilteredIdempotent(items: seq<MatchItem>, f: Filter)
    ensures Filtered(Filtered(items, f), f) == Filtered(items, f)
  {
    if |items| > 0 {
      var rest := items[1..];
      FilteredIdempotent(rest, f);
      var tail := Filtered(rest, f);
      if Shows(f, items[0]) {
        var r := [items[0]] + tail;
        assert Filtered(items, f) == r;
        assert r[1..] == tail;
        assert Filtered(r, f) == [r[0]] + Filtered(r[1..], f);
      } else {
        assert Filtered(items, f) == tail;
      }
    }
  }

  /** Filtering keeps the ids of the kept items distinct. */
  lemma {:induction false} FilteredDistinct(items: seq<MatchItem>, f: Filter)
    requires Distinct(IdsOf(items))
    ensures Distinct(IdsOf(Filtered(items, f)))
  {
    if |items| > 0 {
      var rest := items[1..];
      assert IdsOf(rest) == IdsOf(items)[1..];
      FilteredDistinct(rest, f);
      var tail := Filtered(rest, f);
      if Shows(f, items[0]) {
        HeadNotFiltered(items, f);
        DistinctCons(items[0].id, IdsOf(tail));
        assert IdsOf(Filtered(items, f)) == [items[0].id] + IdsOf(tail);
      } else {
        assert Filtered(items, f) == tail;
      }
    }
  }

  /** With distinct ids, the first item's id is not among the kept rest. */
  lemma HeadNotFiltered(items: seq<MatchItem>, f: Filter)
    requires |items| > 0 && Distinct(IdsOf(items))
    ensures items[0].id !in IdsOf(Filtered(items[1..], f))
  {
    var rest, ids := items[1..], IdsOf(items);
    var tail := Filtered(rest, f);
    forall j | 0 <= j < |tail| ensures IdsOf(tail)[j] != items[0].id {
      FilteredMembers(rest, f, tail[j]);
      var k :| 0 <= k < |rest| && rest[k] == tail[j];
      assert ids[k + 1] == tail[j].id;
    }
  }

  /** `matchItems.find(item => item.id === id)`. */
  function FindItem(items: seq<MatchItem>, id: string): (r: Option<MatchItem>)
    ensures r.Some? ==> r.value in items && r.value.id == id
    ensures r.None? ==> id !in IdsOf(items)
  {
    if |items| == 0 then None
    else if items[0].id == id then Some(items[0])
    else
      var r := FindItem(items[1..], id);
      assert r.None? ==> id !in IdsOf(items) by {
        if r.None? {
          assert IdsOf(items) == [items[0].id] + IdsOf(items[1..]);
        }
      }
      r
  }

  /** With distinct ids, the lookup finds an item exactly when the item has
      the id. */
  lemma FindItemIff(items: seq<MatchItem>, id: string, x: MatchItem)
    requires Distinct(IdsOf(items))
    ensures FindItem(items, id) == Some(x) <==> x in items && x.id == id
  {
    var r := FindItem(items, id);
    if x in items && x.id == id {
      var ids := IdsOf(items);
      var j :| 0 <= j < |items| && items[j] == x;
      assert ids[j] == id;
      var i :| 0 <= i < |items| && items[i] == r.value;
      assert ids[i] == ids[j];
    }
  }

  /** The test of `checkMatch`: both ids name items of `table` and the items'
      ids agree. */
  function IsMatch(table: seq<MatchItem>, wordId: string, imageId: string): bool {
    var w, i := FindItem(table, wordId), FindItem(table, imageId);
    w.Some? && i.Some? && w.value.id == i.value.id
  }

  /** A selected pair matches exactly when both selections are the same item. */
  lemma IsMatchIff(table: seq<MatchItem>, wordId: string, imageId: string)
    ensures IsMatch(table, wordId, imageId) <==> wordId == imageId && wordId in IdsOf(table)
  {
  }

  // ---------------------------------------------------------------------------
  // The matches dictionary

  /** JavaScript truthiness of a selection: set and not the empty string. */
  predicate Truthy(s: Option<string>) {
    s.Some? && s.value != ""
  }

  /** `matches[wordId]` is truthy. */
  predicate Matched(m: map<string, string>, wordId: string) {
    wordId in m && m[wordId] != ""
  }

  /** Every stored match maps an id of `table` to itself. */
  predicate SelfMatched(table: seq<MatchItem>, m: map<string, string>) {
    forall k :: k in m ==> m[k] == k && k in IdsOf(table)
  }

  predicate NonEmptyIds(table: seq<MatchItem>) {
    forall k :: k in IdsOf(table) ==> k != ""
  }

  /** For a dictionary of self matches over non-empty ids, a word is matched
      exactly when its id is a key, and exactly when it is a value. */
  lemma MatchedIsKey(table: seq<MatchItem>, m: map<string, string>, id: string)
    requires SelfMatched(table, m) && NonEmptyIds(table)
    ensures Matched(m, id) <==> id in m
    ensures id in m.Values <==> id in m
  {
    if id in m.Values {
      var k :| k in m && m[k] == id;
    }
  }

  /** Adding an item id matched with itself keeps the dictionary one of self
      matches. */
  lemma SelfMatchedAdd(table: seq<MatchItem>, m: map<string, string>, id: string)
    requires SelfMatched(table, m) && id in IdsOf(table)
    ensures SelfMatched(table, m[id := id])
  {
  }

  /** A set splits by a second set into the common part and the rest. */
  lemma SplitCount(a: set<string>, k: set<string>)
    ensures |a| == |a * k| + |a - k|
  {
    assert a == (a * k) + (a - k);
    assert (a * k) * (a - k) == {};
  }

  /** `Object.keys(matches).filter(...)` for category `c`: the keys whose item
      belongs to `c`. */
  function CategoryKeys(table: seq<MatchItem>, m: map<string, string>, c: Category): set<string> {
    set k | k in m.Keys && FindItem(table, k).Some? && FindItem(table, k).value.category == c
  }

  /** The completion test of `checkMatch`, on the dictionary as it was before
      the attempt, compensated by `+ 1`. */
  function CompletionTest(table: seq<MatchItem>, m: map<string, string>, f: Filter): bool {
    if f.All? then |m.Keys| + 1 == |table|
    else |CategoryKeys(table, m, f.category)| + 1 == |Filtered(Filtered(table, f), f)|
  }

  /** The ids of the items shown under `f`. */
  function ShownIds(table: seq<MatchItem>, f: Filter): seq<string> {
    IdsOf(Filtered(table, f))
  }

  /** The shown items that are not yet matched. */
  function Missing(table: seq<MatchItem>, m: map<string, string>, f: Filter): set<string> {
    Elements(ShownIds(table, f)) - m.Keys
  }

  /** A key of a dictionary of self matches is shown under `f` exactly when
      its item passes the filter. */
  lemma KeyShownIff(table: seq<MatchItem>, m: map<string, string>, f: Filter, k: string)
    requires Distinct(IdsOf(table))
    requires SelfMatched(table, m) && k in m
    ensures k in ShownIds(table, f) <==>
      (f.All? || (FindItem(table, k).Some? && FindItem(table, k).value.category == f.category))
  {
    var ids := IdsOf(table);
    var i :| 0 <= i < |ids| && ids[i] == k;
    var x := table[i];
    FindItemIff(table, k, x);
    if Shows(f, x) {
      ShownWhenPasses(table, f, x);
    }
    if k in ShownIds(table, f) {
      PassesWhenShown(table, f, k);
    }
  }

  /** An item that passes the filter has its id shown. */
  lemma ShownWhenPasses(table: seq<MatchItem>, f: Filter, x: MatchItem)
    requires x in table && Shows(f, x)
    ensures x.id in ShownIds(table, f)
  {
    var shown := Filtered(table, f);
    FilteredMembers(table, f, x);
    var j :| 0 <= j < |shown| && shown[j] == x;
    assert ShownIds(table, f)[j] == x.id;
  }

  /** A shown id is the id of an item that passes the filter. */
  lemma PassesWhenShown(table: seq<MatchItem>, f: Filter, k: string)
    requires Distinct(IdsOf(table)) && k in ShownIds(table, f)
    ensures FindItem(table, k).Some? && Shows(f, FindItem(table, k).value)
  {
    var shown := Filtered(table, f);
    var j :| 0 <= j < |shown| && ShownIds(table, f)[j] == k;
    FilteredMembers(table, f, shown[j]);
    FindItemIff(table, k, shown[j]);
  }

  /** The shown ids under `'all'` are every id of the table. */
  lemma ShownAll(table: seq<MatchItem>)
    ensures ShownIds(table, All) == IdsOf(table)
  {
    FilteredAll(table);
  }

  lemma {:induction false} FilteredAll(items: seq<MatchItem>)
    ensures Filtered(items, All) == items
  {
    if |items| > 0 {
      FilteredAll(items[1..]);
      assert items == [items[0]] + items[1..];
    }
  }

  /** The category keys are the shown ids that are keys. */
  lemma CategoryKeysShown(table: seq<MatchItem>, m: map<string, string>, c: Category)
    requires Distinct(IdsOf(table)) && SelfMatched(table, m)
    ensures CategoryKeys(table, m, c) == Elements(ShownIds(table, Only(c))) * m.Keys
  {
    forall x | x in m.Keys
      ensures x in Elements(ShownIds(table, Only(c))) <==> x in CategoryKeys(table, m, c)
    {
      KeyShownIff(table, m, Only(c), x);
    }
  }

  /** The shown ids have as many elements as there are shown items. */
  lemma ShownCount(table: seq<MatchItem>, f: Filter)
    requires Distinct(IdsOf(table))
    ensures |Elements(ShownIds(table, f))| == |Filtered(table, f)|
  {
    FilteredDistinct(table, f);
    DistinctCardinality(ShownIds(table, f));
  }

  /** Under `'all'` every key is shown. */
  lemma KeysShownAll(table: seq<MatchItem>, m: map<string, string>)
    requires SelfMatched(table, m)
    ensures Elements(ShownIds(table, All)) * m.Keys == m.Keys
  {
    ShownAll(table);
  }

  /** For a dictionary of self matches, the completion test holds exactly when
      one shown item is still unmatched. */
  lemma CompletionTestIff(table: seq<MatchItem>, m: map<string, string>, f: Filter)
    requires Distinct(IdsOf(table)) && SelfMatched(table, m)
    ensures CompletionTest(table, m, f) <==> |Missing(table, m, f)| == 1
  {
    var a := Elements(ShownIds(table, f));
    ShownCount(table, f);
    SplitCount(a, m.Keys);
    if f.All? {
      CompletionAll(table, m);
    } else {
      CompletionOnly(table, m, f.category);
    }
  }

  lemma CompletionAll(table: seq<MatchItem>, m: map<string, string>)
    requires SelfMatched(table, m)
    ensures CompletionTest(table, m, All) <==>
      |Elements(ShownIds(table, All)) * m.Keys| + 1 == |Filtered(table, All)|
  {
    KeysShownAll(table, m);
    FilteredAll(table);
  }

  lemma CompletionOnly(table: seq<MatchItem>, m: map<string, string>, c: Category)
    requires Distinct(IdsOf(table)) && SelfMatched(table, m)
    ensures CompletionTest(table, m, Only(c)) <==>
      |Elements(ShownIds(table, Only(c))) * m.Keys| + 1 == |Filtered(table, Only(c))|
  {
    FilteredIdempotent(table, Only(c));
    CategoryKeysShown(table, m, c);
  }

  /** After matching an unmatched shown item, the completion test said
      "complete" exactly when no shown item is left unmatched. */
  lemma CompletionAfterMatch(table: seq<MatchItem>, m: map<string, string>, f: Filter, id: string)
    requires Distinct(IdsOf(table)) && SelfMatched(table, m)
    requires id in Missing(table, m, f)
    ensures CompletionTest(table, m, f) <==> Missing(table, m[id := id], f) == {}
  {
    CompletionTestIff(table, m, f);
    MissingAfterAdd(table, m, f, id);
    RemoveOne(Missing(table, m, f), id);
  }

  /** Matching `id` removes it, and only it, from the unmatched shown ids. */
  lemma MissingAfterAdd(table: seq<MatchItem>, m: map<string, string>, f: Filter, id: string)
    ensures Missing(table, m[id := id], f) == Missing(table, m, f) - {id}
  {
    assert m[id := id].Keys == m.Keys + {id};
  }

  /** Removing a member from a set of one element leaves it empty, and from a
      larger set leaves it non-empty. */
  lemma RemoveOne(s: set<string>, x: string)
    requires x in s
    ensures |s| == 1 <==> s - {x} == {}
  {
    assert |s - {x}| == |s| - 1;
  }

  /** The completion test also runs after a wrong attempt, which leaves the
      dictionary as it was; whenever it succeeds there, one shown item is
      still unmatched. */
  lemma CompletionAfterMiss(table: seq<MatchItem>, m: map<string, string>, f: Filter)
    requires Distinct(IdsOf(table)) && SelfMatched(table, m)
    requires CompletionTest(table, m, f)
    ensures Missing(table, m, f) != {}
  {
    CompletionTestIff(table, m, f);
  }

  // ---------------------------------------------------------------------------
  // The unmatched columns

  /** `words.filter(word => !matches[word.id])`, on ids. */
  function UnmatchedWords(ids: seq<string>, m: map<string, string>): seq<string> {
    if |ids| == 0 then []
    else (if !Matched(m, ids[0]) then [ids[0]] else []) + UnmatchedWords(ids[1..], m)
  }

  /** `images.filter(image => !Object.values(matches).includes(image.id))`,
      on ids. */
  function UnmatchedImages(ids: seq<string>, m: map<string, string>): seq<string> {
    if |ids| == 0 then []
    else (if ids[0] !in m.Values then [ids[0]] else []) + UnmatchedImages(ids[1..], m)
  }

  /** The unmatched word column holds exactly the shown ids that are not keys
      of the dictionary. */
  lemma {:induction false} UnmatchedWordsIff(table: seq<MatchItem>, ids: seq<string>, m: map<string, string>, x: string)
    requires SelfMatched(table, m) && NonEmptyIds(table)
    ensures x in UnmatchedWords(ids, m) <==> x in ids && x !in m
  {
    if |ids| > 0 {
      UnmatchedWordsIff(table, ids[1..], m, x);
      MatchedIsKey(table, m, ids[0]);
      assert ids == [ids[0]] + ids[1..];
    }
  }

  /** For a dictionary of self matches, the word column and the picture
      column show the same items in the same order. */
  lemma {:induction false} UnmatchedColumnsAgree(table: seq<MatchItem>, ids: seq<string>, m: map<string, string>)
    requires SelfMatched(table, m) && NonEmptyIds(table)
    ensures UnmatchedWords(ids, m) == UnmatchedImages(ids, m)
  {
    if |ids| > 0 {
      UnmatchedColumnsAgree(table, ids[1..], m);
      MatchedIsKey(table, m, ids[0]);
    }
  }

  // ---------------------------------------------------------------------------
  // The component

  /** The state of the `WordPictureMatch` component. */
  class Game {
    /** `matchItems`. */
    const items: seq<MatchItem>
    var selectedWord: Option<string>
    var selectedImage: Option<string>
    var matches: map<string, string>
    var score: int
    var attempts: nat
    var gameComplete: bool
    var showCelebrationPopup: bool
    var currentCategory: Filter

    /** The item ids are distinct and not empty, the score is not negative
        and every stored match is an item matched with itself. */
    predicate Valid()
      reads this
    {
      Distinct(IdsOf(items)) && NonEmptyIds(items) &&
      score >= 0 && SelfMatched(items, matches)
    }

    constructor ()
      ensures Valid()
      ensures selectedWord == None && selectedImage == None && matches == map[]
      ensures score == 0 && attempts == 0 && !gameComplete && !showCelebrationPopup
      ensures currentCategory == Only(Booking) && items == Items()
    {
      items := Items();
      ItemIds();
      selectedWord := None;
      selectedImage := None;
      matches := map[];
      score := 0;
      attempts := 0;
      gameComplete := false;
      showCelebrationPopup := false;
      currentCategory := Only(Booking);
    }

    /** `handleWordClick(wordId)`: select the word unless it is matched. */
    method HandleWordClick(wordId: string)
      requires Valid()
      modifies this
      ensures Valid()
      ensures old(wordId in matches) ==> selectedWord == old(selectedWord)
      ensures old(wordId !in matches) ==> selectedWord == Some(wordId)
      ensures selectedImage == old(selectedImage) && matches == old(matches)
      ensures score == old(score) && attempts == old(attempts)
      ensures gameComplete == old(gameComplete) && showCelebrationPopup == old(showCelebrationPopup)
      ensures currentCategory == old(currentCategory)
    {
      MatchedIsKey(items, matches, wordId);
      if Matched(matches, wordId) {
        return;
      }
      selectedWord := Some(wordId);
    }

    /** `handleImageClick(imageId)`: select the picture unless it is matched. */
    method HandleImageClick(imageId: string)
      requires Valid()
      modifies this
      ensures Valid()
      ensures old(imageId in matches) ==> selectedImage == old(selectedImage)
      ensures old(imageId !in matches) ==> selectedImage == Some(imageId)
      ensures selectedWord == old(selectedWord) && matches == old(matches)
      ensures score == old(score) && attempts == old(attempts)
      ensures gameComplete == old(gameComplete) && showCelebrationPopup == old(showCelebrationPopup)
      ensures currentCategory == old(currentCategory)
    {
      MatchedIsKey(items, matches, imageId);
      if imageId in matches.Values {
        return;
      }
      selectedImage := Some(imageId);
    }

    /** `checkMatch()`: with both selections set, store the pair if it is the
        same item, rescore, count the attempt, clear both selections, and run
        the completion test on the dictionary as it was. */
    method CheckMatch()
      requires Valid()
      modifies this
      ensures Valid()
      ensures !(Truthy(old(selectedWord)) && Truthy(old(selectedImage))) ==>
        selectedWord == old(selectedWord) && selectedImage == old(selectedImage) &&
        matches == old(matches) && score == old(score) && attempts == old(attempts) &&
        gameComplete == old(gameComplete) && showCelebrationPopup == old(showCelebrationPopup)
      ensures Truthy(old(selectedWord)) && Truthy(old(selectedImage)) ==>
        var w, i := old(selectedWord).value, old(selectedImage).value;
        var hit := w == i && w in IdsOf(items);
        matches == (if hit then old(matches)[w := w] else old(matches)) &&
        score == Rescore(old(score), hit) && attempts == old(attempts) + 1 &&
        selectedWord == None && selectedImage == None &&
        gameComplete == (old(gameComplete) || CompletionTest(items, old(matches), currentCategory)) &&
        showCelebrationPopup == (old(showCelebrationPopup) || CompletionTest(items, old(matches), currentCategory))
      ensures currentCategory == old(currentCategory)
    {
      if !Truthy(selectedWord) || !Truthy(selectedImage) {
        return;
      }
      var w, i := selectedWord.value, selectedImage.value;
      IsMatchIff(items, w, i);
      var hit := IsMatch(items, w, i);
      var done := CompletionTest(items, matches, currentCategory);
      if hit {
        SelfMatchedAdd(items, matches, w);
        matches := matches[w := i];
        score := score + 10;
        attempts := attempts + 1;
      } else {
        score := Rescore(score, false);
        attempts := attempts + 1;
      }
      selectedWord := None;
      selectedImage := None;
      if done {
        gameComplete := true;
        showCelebrationPopup := true;
      }
    }

    /** `resetGame()`. */
    method ResetGame()
      requires Valid()
      modifies this
      ensures Valid()
      ensures matches == map[] && score == 0 && attempts == 0
      ensures selectedWord == None && selectedImage == None
      ensures !gameComplete && !showCelebrationPopup
      ensures currentCategory == old(currentCategory)
    {
      matches := map[];
      score := 0;
      attempts := 0;
      selectedWord := None;
      selectedImage := None;
      gameComplete := false;
      showCelebrationPopup := false;
    }

    /** A category button: `setCurrentCategory(category)`; the selections and
        the matches stay as they were. */
    method SelectCategory(f: Filter)
      requires Valid()
      modifies this
      ensures Valid()
      ensures currentCategory == f
      ensures selectedWord == old(selectedWord) && selectedImage == old(selectedImage)
      ensures matches == old(matches) && score == old(score) && attempts == old(attempts)
      ensures gameComplete == old(gameComplete) && showCelebrationPopup == old(showCelebrationPopup)
    {
      currentCategory := f;
    }

    /** The buttons that close the celebration window. */
    method ClosePopup()
      requires Valid()
      modifies this
      ensures Valid()
      ensures !showCelebrationPopup
      ensures selectedWord == old(selectedWord) && selectedImage == old(selectedImage)
      ensures matches == old(matches) && score == old(score) && attempts == old(attempts)
      ensures gameComplete == old(gameComplete) && currentCategory == old(currentCategory)
    {
      showCelebrationPopup := false;
    }
  }
}
