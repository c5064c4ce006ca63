/** The sentence builder (src/components/SentenceBuilder.tsx): ten sentence
    templates, each a list of word cards and the sentence they make; the learner
    picks cards into a sentence, removes them, checks the sentence against the
    template and moves on to the next one. */
module SentenceBuilder {
  import opened Common

  /** The grammatical role shown for a card; never used by the logic. */
  datatype WordType = Subject | Verb | Object | Preposition | Destination

  /** A word card: a unique id such as `"3-5"`, its word and its role. */
  datatype WordCard = WordCard(id: string, word: string, kind: WordType)

  /** A template: its id, its cards in the correct order and the correct
      sentence (the Russian translation is display text and is left out). */
  datatype Template = Template(id: string, words: seq<WordCard>, correct: string)

  // ---------------------------------------------------------------------------
  // Joining and splitting words

  /** `cards.map(word => word.word)`. */
  function Words(cards: seq<WordCard>): (ws: seq<string>)
    ensures |ws| == |cards|
    ensures forall i :: 0 <= i < |cards| ==> ws[i] == cards[i].word
  {
    seq(|cards|, i requires 0 <= i < |cards| => cards[i].word)
  }

  /** `cards.map(word => word.id)`. */
  function Ids(cards: seq<WordCard>): (ids: seq<string>)
    ensures |ids| == |cards|
    ensures forall i :: 0 <= i < |cards| ==> ids[i] == cards[i].id
  {
    seq(|cards|, i requires 0 <= i < |cards| => cards[i].id)
  }

  /** `ws.join(' ')`: the words separated by single spaces. */
  function Join(ws: seq<string>): string {
    if |ws| == 0 then "" else if |ws| == 1 then ws[0] else ws[0] + " " + Join(ws[1..])
  }

  /** The pieces between the spaces: the inverse of `Join` on words without
      spaces, used only to prove that joining loses nothing (`SplitJoin`). */
  function Split(s: string): (pieces: seq<string>)
    ensures |pieces| > 0
    decreases |s|
  {
    match FirstIndex(s, ' ')
    case None => [s]
    case Some(i) => [s[..i]] + Split(s[i + 1..])
  }

  /** A word of a card: not empty and without spaces. */
  predicate IsWord(w: string) {
    |w| > 0 && ' ' !in w
  }

  /** Every card carries a word. */
  predicate AllWords(cards: seq<WordCard>) {
    forall i :: 0 <= i < |cards| ==> IsWord(cards[i].word)
  }

  /** `userSentence.map(word => word.word).join(' ')`. */
  function SentenceText(cards: seq<WordCard>): string {
    Join(Words(cards))
  }

  /** Splitting a joined list of words gives the words back. */
  lemma {:induction false} SplitJoin(ws: seq<string>)
    requires |ws| > 0
    requires forall i :: 0 <= i < |ws| ==> IsWord(ws[i])
    ensures Split(Join(ws)) == ws
  {
    if |ws| > 1 {
      var w, rest := ws[0], Join(ws[1..]);
      var s := w + " " + rest;
      assert s[|w|] == ' ';
      assert forall k :: 0 <= k < |w| ==> s[k] == w[k];
      assert FirstIndex(s, ' ') == Some(|w|);
      assert s[..|w|] == w && s[|w| + 1..] == rest;
      SplitJoin(ws[1..]);
    } else {
      assert FirstIndex(ws[0], ' ') == None;
    }
  }

  /** Two non-empty lists of words join to the same text exactly when they
      are the same list. */
  lemma JoinInjective(a: seq<string>, b: seq<string>)
    requires |a| > 0 && |b| > 0
    requires forall i :: 0 <= i < |a| ==> IsWord(a[i])
    requires forall i :: 0 <= i < |b| ==> IsWord(b[i])
    ensures Join(a) == Join(b) <==> a == b
  {
    if Join(a) == Join(b) {
      SplitJoin(a);
      SplitJoin(b);
    }
  }

  /** Joining a list of words whose first word is not empty gives a non-empty
      text. */
  lemma JoinNonEmpty(ws: seq<string>)
    requires |ws| > 0 && |ws[0]| > 0
    ensures |Join(ws)| > 0
  {
  }

  lemma JoinCons(w: string, rest: seq<string>)
    requires |rest| > 0
    ensures Join([w] + rest) == w + " " + Join(rest)
  {
    assert ([w] + rest)[1..] == rest;
  }

  lemma Join2(a: string, b: string)
    ensures Join([a, b]) == a + " " + b
  {
    JoinCons(a, [b]);
    assert [a, b] == [a] + [b];
  }

  lemma Join3(a: string, b: string, c: string)
    ensures Join([a, b, c]) == a + " " + b + " " + c
  {
    Join2(b, c);
    JoinCons(a, [b, c]);
    assert [a, b, c] == [a] + [b, c];
  }

  lemma Join4(a: string, b: string, c: string, d: string)
    ensures Join([a, b, c, d]) == a + " " + b + " " + c + " " + d
  {
    Join3(b, c, d);
    JoinCons(a, [b, c, d]);
    assert [a, b, c, d] == [a] + [b, c, d];
  }

  lemma Join5(a: string, b: string, c: string, d: string, e: string)
    ensures Join([a, b, c, d, e]) == a + " " + b + " " + c + " " + d + " " + e
  {
    Join4(b, c, d, e);
    JoinCons(a, [b, c, d, e]);
    assert [a, b, c, d, e] == [a] + [b, c, d, e];
  }

  lemma Join6(a: string, b: string, c: string, d: string, e: string, f: string)
    ensures Join([a, b, c, d, e, f]) == a + " " + b + " " + c + " " + d + " " + e + " " + f
  {
    Join5(b, c, d, e, f);
    JoinCons(a, [b, c, d, e, f]);
    assert [a, b, c, d, e, f] == [a] + [b, c, d, e, f];
  }

  lemma Join7(a: string, b: string, c: string, d: string, e: string, f: string, g: string)
    ensures Join([a, b, c, d, e, f, g]) == a + " " + b + " " + c + " " + d + " " + e + " " + f + " " + g
  {
    Join6(b, c, d, e, f, g);
    JoinCons(a, [b, c, d, e, f, g]);
    assert [a, b, c, d, e, f, g] == [a] + [b, c, d, e, f, g];
  }

  // ---------------------------------------------------------------------------
  // The table of `sentenceTemplates`

  /** `sentenceTemplates.length`. */
  const TemplateCount := 10

  /** The cards are words, no two share an id, and in stored order they spell
      the correct sentence. */
  predicate Spells(t: Template) {
    |t.words| > 0 && AllWords(t.words) && Distinct(Ids(t.words)) &&
    SentenceText(t.words) == t.correct
  }

  function Template1(): Template {
    Template("1", [
      WordCard("1-1", "My", Subject),
      WordCard("1-2", "flight", Object),
      WordCard("1-3", "number", Object),
      WordCard("1-4", "is", Verb),
      WordCard("1-5", "AA123", Destination)],
      "My flight number is AA123")
  }

  lemma Template1Text()
    ensures "My" + " " + "flight" + " " + "number" + " " + "is" + " " + "AA123" == "My flight number is AA123"
  {
    assert "My" + " " + "flight" == "My flight";
    assert "My flight" + " " + "number" == "My flight number";
    assert "My flight number" + " " + "is" == "My flight number is";
  }

  lemma Template1Joins()
    ensures SentenceText(Template1().words) == Template1().correct
  {
    var ws := Words(Template1().words);
    assert ws == [ws[0], ws[1], ws[2], ws[3], ws[4]];
    Join5(ws[0], ws[1], ws[2], ws[3], ws[4]);
    Template1Text();
  }

  lemma Template1Cards()
    ensures AllWords(Template1().words) && Distinct(Ids(Template1().words))
  {
  }

  lemma Template1Spells()
    ensures Spells(Template1()) && Spells(TemplateAt(0))
  {
    Template1Cards();
    Template1Joins();
  }

  function Template2(): Template {
    Template("2", [
      WordCard("2-1", "I", Subject),
      WordCard("2-2", "am", Verb),
      WordCard("2-3", "traveling", Verb),
      WordCard("2-4", "to", Preposition),
      WordCard("2-5", "Argentina", Destination)],
      "I am traveling to Argentina")
  }

  lemma Template2Text()
    ensures "I" + " " + "am" + " " + "traveling" + " " + "to" + " " + "Argentina" == "I am traveling to Argentina"
  {
    assert "I" + " " + "am" == "I am";
    assert "I am" + " " + "traveling" == "I am traveling";
    assert "I am traveling" + " " + "to" == "I am traveling to";
  }

  lemma Template2Joins()
    ensures SentenceText(Template2().words) == Template2().correct
  {
    var ws := Words(Template2().words);
    assert ws == [ws[0], ws[1], ws[2], ws[3], ws[4]];
    Join5(ws[0], ws[1], ws[2], ws[3], ws[4]);
    Template2Text();
  }

  lemma Template2Cards()
    ensures AllWords(Template2().words) && Distinct(Ids(Template2().words))
  {
  }

  lemma Template2Spells()
    ensures Spells(Template2()) && Spells(TemplateAt(1))
  {
    Template2Cards();
    Template2Joins();
  }

  function Template3(): Template {
    Template("3", [
      WordCard("3-1", "My", Subject),
      WordCard("3-2", "final", Object),
      WordCard("3-3", "destination", Object),
      WordCard("3-4", "is", Verb),
      WordCard("3-5", "Buenos", Destination),
      WordCard("3-6", "Aires", Destination)],
      "My final destination is Buenos Aires")
  }

  lemma Template3Text()
    ensures "My" + " " + "final" + " " + "destination" + " " + "is" + " " + "Buenos" + " " + "Aires" == "My final destination is Buenos Aires"
  {
    assert "My" + " " + "final" == "My final";
    assert "My final" + " " + "destination" == "My final destination";
    assert "My final destination" + " " + "is" == "My final destination is";
    assert "My final destination is" + " " + "Buenos" == "My final destination is Buenos";
  }

  lemma Template3Joins()
    ensures SentenceText(Template3().words) == Template3().correct
  {
    var ws := Words(Template3().words);
    assert ws == [ws[0], ws[1], ws[2], ws[3], ws[4], ws[5]];
    Join6(ws[0], ws[1], ws[2], ws[3], ws[4], ws[5]);
    Template3Text();
  }

  lemma Template3Cards()
    ensures AllWords(Template3().words) && Distinct(Ids(Template3().words))
  {
  }

  lemma Template3Spells()
    ensures Spells(Template3()) && Spells(TemplateAt(2))
  {
    Template3Cards();
    Template3Joins();
  }

  function Template4(): Template {
    Template("4", [
      WordCard("4-1", "I", Subject),
      WordCard("4-2", "am", Verb),
      WordCard("4-3", "staying", Verb),
      WordCard("4-4", "in", Preposition),
      WordCard("4-5", "a", Object),
      WordCard("4-6", "hotel", Object)],
      "I am staying in a hotel")
  }

  lemma Template4Text()
    ensures "I" + " " + "am" + " " + "staying" + " " + "in" + " " + "a" + " " + "hotel" == "I am staying in a hotel"
  {
    assert "I" + " " + "am" == "I am";
    assert "I am" + " " + "staying" == "I am staying";
    assert "I am staying" + " " + "in" == "I am staying in";
    assert "I am staying in" + " " + "a" == "I am staying in a";
  }

  lemma Template4Joins()
    ensures SentenceText(Template4().words) == Template4().correct
  {
    var ws := Words(Template4().words);
    assert ws == [ws[0], ws[1], ws[2], ws[3], ws[4], ws[5]];
    Join6(ws[0], ws[1], ws[2], ws[3], ws[4], ws[5]);
    Template4Text();
  }

  lemma Template4Cards()
    ensures AllWords(Template4().words) && Distinct(Ids(Template4().words))
  {
  }

  lemma Template4Spells()
    ensures Spells(Template4()) && Spells(TemplateAt(3))
  {
    Template4Cards();
    Template4Joins();
  }

  function Template5(): Template {
    Template("5", [
      WordCard("5-1", "I", Subject),
      WordCard("5-2", "need", Verb),
      WordCard("5-3", "to", Preposition),
      WordCard("5-4", "check", Verb),
      WordCard("5-5", "in", Preposition)],
      "I need to check in")
  }

  lemma Template5Text()
    ensures "I" + " " + "need" + " " + "to" + " " + "check" + " " + "in" == "I need to check in"
  {
    assert "I" + " " + "need" == "I need";
    assert "I need" + " " + "to" == "I need to";
    assert "I need to" + " " + "check" == "I need to check";
  }

  lemma Template5Joins()
    ensures SentenceText(Template5().words) == Template5().correct
  {
    var ws := Words(Template5().words);
    assert ws == [ws[0], ws[1], ws[2], ws[3], ws[4]];
    Join5(ws[0], ws[1], ws[2], ws[3], ws[4]);
    Template5Text();
  }

  lemma Template5Cards()
    ensures AllWords(Template5().words) && Distinct(Ids(Template5().words))
  {
  }

  lemma Template5Spells()
    ensures Spells(Template5()) && Spells(TemplateAt(4))
  {
    Template5Cards();
    Template5Joins();
  }

  function Template6(): Template {
    Template("6", [
      WordCard("6-1", "Where", Subject),
      WordCard("6-2", "is", Verb),
      WordCard("6-3", "the", Object),
      WordCard("6-4", "check-in", Object),
      WordCard("6-5", "counter", Object)],
      "Where is the check-in counter")
  }

  lemma Template6Text()
    ensures "Where" + " " + "is" + " " + "the" + " " + "check-in" + " " + "counter" == "Where is the check-in counter"
  {
    assert "Where" + " " + "is" == "Where is";
    assert "Where is" + " " + "the" == "Where is the";
    assert "Where is the" + " " + "check-in" == "Where is the check-in";
  }

  lemma Template6Joins()
    ensures SentenceText(Template6().words) == Template6().correct
  {
    var ws := Words(Template6().words);
    assert ws == [ws[0], ws[1], ws[2], ws[3], ws[4]];
    Join5(ws[0], ws[1], ws[2], ws[3], ws[4]);
    Template6Text();
  }

  lemma Template6Cards()
    ensures AllWords(Template6().words) && Distinct(Ids(Template6().words))
  {
  }

  lemma Template6Spells()
    ensures Spells(Template6()) && Spells(TemplateAt(5))
  {
    Template6Cards();
    Template6Joins();
  }

  function Template7(): Template {
    Template("7", [
      WordCard("7-1", "I", Subject),
      WordCard("7-2", "have", Verb),
      WordCard("7-3", "a", Object),
      WordCard("7-4", "connecting", Verb),
      WordCard("7-5", "flight", Object)],
      "I have a connecting flight")
  }

  lemma Template7Text()
    ensures "I" + " " + "have" + " " + "a" + " " + "connecting" + " " + "flight" == "I have a connecting flight"
  {
    assert "I" + " " + "have" == "I have";
    assert "I have" + " " + "a" == "I have a";
    assert "I have a" + " " + "connecting" == "I have a connecting";
  }

  lemma Template7Joins()
    ensures SentenceText(Template7().words) == Template7().correct
  {
    var ws := Words(Template7().words);
    assert ws == [ws[0], ws[1], ws[2], ws[3], ws[4]];
    Join5(ws[0], ws[1], ws[2], ws[3], ws[4]);
    Template7Text();
  }

  lemma Template7Cards()
    ensures AllWords(Template7().words) && Distinct(Ids(Template7().words))
  {
  }

  lemma Template7Spells()
    ensures Spells(Template7()) && Spells(TemplateAt(6))
  {
    Template7Cards();
    Template7Joins();
  }

  function Template8(): Template {
    Template("8", [
      WordCard("8-1", "Could", Subject),
      WordCard("8-2", "you", Subject),
      WordCard("8-3", "help", Verb),
      WordCard("8-4", "me", Object),
      WordCard("8-5", "with", Preposition),
      WordCard("8-6", "my", Object),
      WordCard("8-7", "luggage", Object)],
      "Could you help me with my luggage")
  }

  lemma Template8Text()
    ensures "Could" + " " + "you" + " " + "help" + " " + "me" + " " + "with" + " " + "my" + " " + "luggage" == "Could you help me with my luggage"
  {
    assert "Could" + " " + "you" == "Could you";
    assert "Could you" + " " + "help" == "Could you help";
    assert "Could you help" + " " + "me" == "Could you help me";
    assert "Could you help me" + " " + "with" == "Could you help me with";
    assert "Could you help me with" + " " + "my" == "Could you help me with my";
  }

  lemma Template8Joins()
    ensures SentenceText(Template8().words) == Template8().correct
  {
    var ws := Words(Template8().words);
    assert ws == [ws[0], ws[1], ws[2], ws[3], ws[4], ws[5], ws[6]];
    Join7(ws[0], ws[1], ws[2], ws[3], ws[4], ws[5], ws[6]);
    Template8Text();
  }

  lemma Template8Cards()
    ensures AllWords(Template8().words) && Distinct(Ids(Template8().words))
  {
  }

  lemma Template8Spells()
    ensures Spells(Template8()) && Spells(TemplateAt(7))
  {
    Template8Cards();
    Template8Joins();
  }

  function Template9(): Template {
    Template("9", [
      WordCard("9-1", "My", Subject),
      WordCard("9-2", "flight", Object),
      WordCard("9-3", "is", Verb),
      WordCard("9-4", "delayed", Verb)],
      "My flight is delayed")
  }

  lemma Template9Text()
    ensures "My" + " " + "flight" + " " + "is" + " " + "delayed" == "My flight is delayed"
  {
    assert "My" + " " + "flight" == "My flight";
    assert "My flight" + " " + "is" == "My flight is";
  }

  lemma Template9Joins()
    ensures SentenceText(Template9().words) == Template9().correct
  {
    var ws := Words(Template9().words);
    assert ws == [ws[0], ws[1], ws[2], ws[3]];
    Join4(ws[0], ws[1], ws[2], ws[3]);
    Template9Text();
  }

  lemma Template9Cards()
    ensures AllWords(Template9().words) && Distinct(Ids(Template9().words))
  {
  }

  lemma Template9Spells()
    ensures Spells(Template9()) && Spells(TemplateAt(8))
  {
    Template9Cards();
    Template9Joins();
  }

  function Template10(): Template {
    Template("10", [
      WordCard("10-1", "I", Subject),
      WordCard("10-2", "need", Verb),
      WordCard("10-3", "to", Preposition),
      WordCard("10-4", "change", Verb),
      WordCard("10-5", "my", Object),
      WordCard("10-6", "flight", Object)],
      "I need to change my flight")
  }

  lemma Template10Text()
    ensures "I" + " " + "need" + " " + "to" + " " + "change" + " " + "my" + " " + "flight" == "I need to change my flight"
  {
    assert "I" + " " + "need" == "I need";
    assert "I need" + " " + "to" == "I need to";
    assert "I need to" + " " + "change" == "I need to change";
    assert "I need to change" + " " + "my" == "I need to change my";
  }

  lemma Template10Joins()
    ensures SentenceText(Template10().words) == Template10().correct
  {
    var ws := Words(Template10().words);
    assert ws == [ws[0], ws[1], ws[2], ws[3], ws[4], ws[5]];
    Join6(ws[0], ws[1], ws[2], ws[3], ws[4], ws[5]);
    Template10Text();
  }

  lemma Template10Cards()
    ensures AllWords(Template10().words) && Distinct(Ids(Template10().words))
  {
  }

  lemma Template10Spells()
    ensures Spells(Template10()) && Spells(TemplateAt(9))
  {
    Template10Cards();
    Template10Joins();
  }

  /** `sentenceTemplates[k]`. */
  function TemplateAt(k: nat): Template
    requires k < TemplateCount
  {
    if k == 0 then Template1()
    else if k == 1 then Template2()
    else if k == 2 then Template3()
    else if k == 3 then Template4()
    else if k == 4 then Template5()
    else if k == 5 then Template6()
    else if k == 6 then Template7()
    else if k == 7 then Template8()
    else if k == 8 then Template9()
    else Template10()
  }

  /** Every template of the table spells its correct sentence with distinct
      cards. */
  lemma TemplateSpells(k: nat)
    requires k < TemplateCount
    ensures Spells(TemplateAt(k))
  {
    if k == 0 { Template1Spells(); }
    else if k == 1 { Template2Spells(); }
    else if k == 2 { Template3Spells(); }
    else if k == 3 { Template4Spells(); }
    else if k == 4 { Template5Spells(); }
    else if k == 5 { Template6Spells(); }
    else if k == 6 { Template7Spells(); }
    else if k == 7 { Template8Spells(); }
    else if k == 8 { Template9Spells(); }
    else { Template10Spells(); }
  }

  // ---------------------------------------------------------------------------
  // The sentence being built

  /** `userSentence.find(w => w.id === id)` finds a card. */
  predicate HasId(cards: seq<WordCard>, id: string) {
    id in Ids(cards)
  }

  /** `prev.filter((_, i) => i !== index)`: keep every card whose position is
      not `index`. */
  function RemoveAt<T>(s: seq<T>, index: int): seq<T> {
    if |s| == 0 then []
    else RemoveAt(s[..|s| - 1], index) + (if |s| - 1 != index then [s[|s| - 1]] else [])
  }

  /** The filter removes exactly the element at `index` and keeps the others in
      order; an index outside the sequence removes nothing. */
  lemma {:induction false} RemoveAtSpec<T>(s: seq<T>, index: int)
    ensures 0 <= index < |s| ==> RemoveAt(s, index) == s[..index] + s[index + 1..]
    ensures !(0 <= index < |s|) ==> RemoveAt(s, index) == s
  {
    if |s| > 0 {
      var init := s[..|s| - 1];
      RemoveAtSpec(init, index);
      if index == |s| - 1 {
        assert init == s[..index] && s[index + 1..] == [];
      } else if 0 <= index < |s| - 1 {
        assert init[..index] == s[..index];
        assert init[index + 1..] + [s[|s| - 1]] == s[index + 1..];
      } else {
        assert init + [s[|s| - 1]] == s;
      }
    }
  }

  /** The cards of a sentence have distinct ids and all come from `t`. */
  predicate DrawnFrom(cards: seq<WordCard>, t: Template) {
    Distinct(Ids(cards)) && forall c :: c in cards ==> c in t.words
  }

  /** The empty sentence is drawn from every template. */
  lemma EmptyDrawnFrom(t: Template)
    ensures DrawnFrom([], t)
  {
  }

  /** Removing one card keeps the remaining cards distinct and drawn from the
      same template. */
  lemma RemoveAtDrawnFrom(cards: seq<WordCard>, index: int, t: Template)
    requires DrawnFrom(cards, t)
    ensures DrawnFrom(RemoveAt(cards, index), t)
  {
    RemoveAtSpec(cards, index);
    if 0 <= index < |cards| {
      var r := RemoveAt(cards, index);
      var ids, rids := Ids(cards), Ids(r);
      forall i, j | 0 <= i < j < |r| ensures rids[i] != rids[j] {
        var i', j' := if i < index then i else i + 1, if j < index then j else j + 1;
        assert r[i] == cards[i'] && r[j] == cards[j'];
      }
    }
  }

  /** A sentence drawn from a template has at most as many cards as the
      template. */
  lemma SentenceBound(cards: seq<WordCard>, t: Template)
    requires DrawnFrom(cards, t)
    ensures |cards| <= |t.words|
  {
    var ids := Ids(cards);
    forall i, j | 0 <= i < j < |cards| ensures cards[i] != cards[j] {
      assert ids[i] != ids[j];
    }
    DistinctBound(cards, Elements(t.words));
    ElementsBound(t.words);
  }

  /** For a template that spells its sentence, the joined text of cards drawn
      from it equals the correct sentence exactly when the words are the
      template's words in the template's order. */
  lemma CheckCorrectIff(cards: seq<WordCard>, t: Template)
    requires Spells(t) && DrawnFrom(cards, t)
    ensures SentenceText(cards) == t.correct <==> Words(cards) == Words(t.words)
  {
    var ws, target := Words(cards), Words(t.words);
    assert forall i :: 0 <= i < |ws| ==> IsWord(ws[i]) by {
      forall i | 0 <= i < |ws| ensures IsWord(ws[i]) {
        assert cards[i] in t.words;
      }
    }
    JoinNonEmpty(target);
    if |ws| == 0 {
      assert Join(ws) == "";
    } else {
      JoinInjective(ws, target);
    }
  }

  /** The check of `CheckCorrectIff` for the template at index `k`. */
  lemma CheckCorrectAt(cards: seq<WordCard>, k: nat)
    requires k < TemplateCount && DrawnFrom(cards, TemplateAt(k))
    ensures SentenceText(cards) == TemplateAt(k).correct <==> Words(cards) == Words(TemplateAt(k).words)
  {
    var t := TemplateAt(k);
    TemplateSpells(k);
    CheckCorrectIff(cards, t);
  }

  /** The state of the `SentenceBuilder` component. */
  class Builder {
    var currentSentence: nat
    var userSentence: seq<WordCard>
    var score: int
    var attempts: nat
    var showResult: bool
    var isCorrect: bool

    /** The sentence index is in range, the score is not negative and the
        chosen cards are distinct cards of the current template. */
    predicate Valid()
      reads this
    {
      currentSentence < TemplateCount && score >= 0 &&
      DrawnFrom(userSentence, TemplateAt(currentSentence))
    }

    constructor ()
      ensures Valid()
      ensures currentSentence == 0 && userSentence == [] && score == 0
      ensures attempts == 0 && !showResult && !isCorrect
    {
      currentSentence := 0;
      userSentence := [];
      score := 0;
      attempts := 0;
      showResult := false;
      isCorrect := false;
    }

    /** `addWord(word)`: append the card unless a card with its id is already
        in the sentence. The only caller passes a card of the current
        template. */
    method AddWord(card: WordCard)
      requires Valid()
      requires card in TemplateAt(currentSentence).words
      modifies this
      ensures Valid()
      ensures old(HasId(userSentence, card.id)) ==> userSentence == old(userSentence)
      ensures !old(HasId(userSentence, card.id)) ==> userSentence == old(userSentence) + [card]
      ensures |userSentence| <= |TemplateAt(currentSentence).words|
      ensures currentSentence == old(currentSentence) && score == old(score)
      ensures attempts == old(attempts) && showResult == old(showResult)
      ensures isCorrect == old(isCorrect)
    {
      if !HasId(userSentence, card.id) {
        Common.DistinctAppend(Ids(userSentence), card.id);
        assert Ids(userSentence + [card]) == Ids(userSentence) + [card.id];
        userSentence := userSentence + [card];
      }
      SentenceBound(userSentence, TemplateAt(currentSentence));
    }

    /** `removeWord(index)`: drop the card at `index`. */
    method RemoveWord(index: int)
      requires Valid()
      modifies this
      ensures Valid()
      ensures userSentence == RemoveAt(old(userSentence), index)
      ensures currentSentence == old(currentSentence) && score == old(score)
      ensures attempts == old(attempts) && showResult == old(showResult)
      ensures isCorrect == old(isCorrect)
    {
      RemoveAtDrawnFrom(userSentence, index, TemplateAt(currentSentence));
      userSentence := RemoveAt(userSentence, index);
    }

    /** `checkSentence()`: compare the joined words with the correct sentence,
        show the result, count the attempt and rescore. The check button is
        rendered only while the sentence has a word, so on an empty sentence
        nothing changes. */
    method CheckSentence()
      requires Valid()
      modifies this
      ensures Valid()
      ensures old(|userSentence|) > 0 ==> isCorrect == (SentenceText(userSentence) == TemplateAt(currentSentence).correct)
      ensures old(|userSentence|) > 0 ==> isCorrect == (Words(userSentence) == Words(TemplateAt(currentSentence).words))
      ensures old(|userSentence|) > 0 ==> showResult && attempts == old(attempts) + 1
      ensures old(|userSentence|) > 0 ==> score == Rescore(old(score), isCorrect)
      ensures old(|userSentence|) == 0 ==> isCorrect == old(isCorrect) && showResult == old(showResult)
      ensures old(|userSentence|) == 0 ==> attempts == old(attempts) && score == old(score)
      ensures userSentence == old(userSentence) && currentSentence == old(currentSentence)
    {
      if |userSentence| > 0 {
        CheckCorrectAt(userSentence, currentSentence);
        isCorrect := SentenceText(userSentence) == TemplateAt(currentSentence).correct;
        showResult := true;
        attempts := attempts + 1;
        score := Rescore(score, isCorrect);
      }
    }

    /** `resetSentence()`: empty the sentence and hide the result. */
    method ResetSentence()
      requires Valid()
      modifies this
      ensures Valid()
      ensures userSentence == [] && !showResult
      ensures currentSentence == old(currentSentence) && score == old(score)
      ensures attempts == old(attempts) && isCorrect == old(isCorrect)
    {
      EmptyDrawnFrom(TemplateAt(currentSentence));
      userSentence := [];
      showResult := false;
    }

    /** `nextSentence()`: move to the next template and reset, or, on the last
        one, report completion (`onComplete`) and change nothing. The Next
        button is rendered only while the result is shown, so otherwise
        nothing changes and nothing completes. */
    method NextSentence() returns (complete: bool)
      requires Valid()
      modifies this
      ensures Valid()
      ensures complete <==> old(showResult) && old(currentSentence) == TemplateCount - 1
      ensures old(showResult) && !complete ==> currentSentence == old(currentSentence) + 1 && userSentence == [] && !showResult
      ensures !old(showResult) || complete ==> currentSentence == old(currentSentence) && userSentence == old(userSentence) && showResult == old(showResult)
      ensures score == old(score) && attempts == old(attempts) && isCorrect == old(isCorrect)
    {
      complete := false;
      if showResult {
        if currentSentence < TemplateCount - 1 {
          currentSentence := currentSentence + 1;
          EmptyDrawnFrom(TemplateAt(currentSentence));
          userSentence := [];
          showResult := false;
        } else {
          complete := true;
        }
      }
    }
  }
}
