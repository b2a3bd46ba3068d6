/**
 * The flash-card study tool: one card per line of a deck file
 * (`answer<TAB>question`), cards grouped into fixed-size sections, and the
 * progression through a section as the user answers.
 */
module Study {
  import opened Wrappers
  import opened Strings

  // ----- src/card.rs -----

  datatype CardStatus = New | Learning | Mastered

  datatype Card = Card(question: string, answer: string, status: CardStatus)

  /**
   * `Card::from_str`: `splitn(2, '\t')` gives the answer before the first tab
   * and the question after it (further tabs stay in the question).
   */
  function ParseCard(line: string): (r: Option<Card>)
    ensures r.None? <==> '\t' !in line
  {
    FindChar(line, '\t');
    match SplitOnce(line, "\t")
    case None => None
    case Some((answer, question)) => Some(Card(question, answer, New))
  }

  /** A parsed card is the line cut at its first tab, and starts out new. */
  lemma ParseCardSpec(line: string)
    ensures var r := ParseCard(line);
      r.Some? ==> r.value.answer + "\t" + r.value.question == line && '\t' !in r.value.answer && r.value.status == New
  {
    FindChar(line, '\t');
    match SplitOnce(line, "\t")
    case None =>
    case Some((answer, question)) =>
      assert answer == line[..|answer|] by {
        assert line == answer + "\t" + question;
      }
  }

  /** `CardStatus::to_string`. */
  function StatusText(s: CardStatus): (r: string)
    ensures r != []
  {
    match s
    case New => "NEW"
    case Learning => "LEARNING"
    case Mastered => "MASTERED"
  }

  /** The three statuses render differently, so the text names the status. */
  lemma StatusTextInjective(a: CardStatus, b: CardStatus)
    requires StatusText(a) == StatusText(b)
    ensures a == b
  {
  }

  /** A line with a tab parses, whatever else it holds. */
  lemma ParseCardExample(line: string)
    requires line == "chien\tdog\tanimal"
    ensures ParseCard(line) == Some(Card("dog\tanimal", "chien", New))
  {
    assert line[..5] == "chien" && line[5] == '\t' && line[6..] == "dog\tanimal";
    assert '\t' !in line[..5];
    SplitAtFirstTab(line, 5);
  }

  /** A line without a tab is not a card. */
  lemma NoTabExample(line: string)
    requires line == "no tab here"
    ensures ParseCard(line) == None
  {
    assert forall i :: 0 <= i < |line| ==> line[i] != '\t';
  }

  /** Splitting at the first tab, seen from its position. */
  lemma SplitAtFirstTab(line: string, k: nat)
    requires k < |line| && line[k] == '\t' && '\t' !in line[..k]
    ensures ParseCard(line) == Some(Card(line[k + 1..], line[..k], New))
  {
    assert OccursAt(line, "\t", k) by {
      assert line[k..k + 1] == [line[k]];
    }
    forall j | 0 <= j < k
      ensures !OccursAt(line, "\t", j)
    {
      assert line[j..j + 1] == [line[j]] && line[j] == line[..k][j];
    }
    FindFirst(line, "\t", k);
    var parts := SplitOnce(line, "\t").value;
    assert line == parts.0 + "\t" + parts.1;
    assert parts.0 == line[..k] && parts.1 == line[k + 1..];
  }

  // ----- study/src/set.rs -----

  /** Whether every line of the deck is a card. */
  predicate AllCards(lines: seq<string>) {
    forall i :: 0 <= i < |lines| ==> ParseCard(lines[i]).Some?
  }

  /**
   * The card loop of `Set::load` over the lines of the file: every line is examined (an invalid one is
   * reported and skipped), and the load fails if any line was invalid.
   */
  method LoadCards(lines: seq<string>) returns (r: Option<seq<Card>>)
    ensures r.Some? <==> AllCards(lines)
    ensures r.Some? ==> |r.value| == |lines|
    ensures r.Some? ==> forall i :: 0 <= i < |r.value| ==> ParseCard(lines[i]) == Some(r.value[i])
  {
    var cards: seq<Card> := [];
    var success := true;
    for i := 0 to |lines|
      invariant success <==> AllCards(lines[..i])
      invariant success ==> |cards| == i
      invariant success ==> forall k :: 0 <= k < |cards| ==> ParseCard(lines[k]) == Some(cards[k])
    {
      match ParseCard(lines[i])
      case None =>
        success := false;
      case Some(card) =>
        cards := cards + [card];
    }
    assert lines[..|lines|] == lines;
    r := if success then Some(cards) else None;
  }

  lemma MulBound(i: nat, n: nat, c: nat)
    requires c > 0 && i < n / c
    ensures (i + 1) * c <= n
  {
    assert (i + 1) * c == i * c + c;
    assert n == (n / c) * c + n % c;
    assert (i + 1) * c <= (n / c) * c by {
      assert i + 1 <= n / c;
    }
  }

  /** Section `i` holds cards `i·size` up to `(i+1)·size`, for as many full sections as fit. */
  predicate Chunked(cards: seq<Card>, size: nat, sections: seq<seq<Card>>)
    requires size > 0
  {
    && |sections| == |cards| / size
    && forall i :: 0 <= i < |sections| ==> i * size + size <= |cards| && sections[i] == cards[i * size..i * size + size]
  }

  /** The section loop of `Set::load`: consecutive full chunks; leftovers are dropped. */
  method ChunkSections(cards: seq<Card>, size: nat) returns (sections: seq<seq<Card>>)
    requires size > 0
    ensures Chunked(cards, size, sections)
  {
    sections := [];
    var count := |cards| / size;
    for i := 0 to count
      invariant |sections| == i
      invariant forall k :: 0 <= k < i ==> k * size + size <= |cards| && sections[k] == cards[k * size..k * size + size]
    {
      MulBound(i, |cards|, size);
      var start := i * size;
      var end := start + size;
      sections := sections + [cards[start..end]];
    }
  }

  /** Every section has the full size, so leftover cards are never studied. */
  lemma SectionsCoverPrefix(cards: seq<Card>, size: nat, sections: seq<seq<Card>>)
    requires size > 0 && Chunked(cards, size, sections)
    ensures |cards| - |sections| * size < size
    ensures forall i :: 0 <= i < |sections| ==> |sections[i]| == size
  {
    assert |cards| == (|cards| / size) * size + |cards| % size;
  }

  /** A deck with fewer cards than one section has no section at all. */
  lemma SmallDeckNoSections(cards: seq<Card>, size: nat, sections: seq<seq<Card>>)
    requires size > 0 && Chunked(cards, size, sections) && |cards| < size
    ensures sections == []
  {
  }

  /**
   * `Set`: the deck, its sections and the position reached. `finished`
   * stands for the process having exited after the last section.
   */
  class StudySet {
    var name: string
    var cards: seq<Card>
    var sections: seq<seq<Card>>
    var currentSection: nat
    var currentCard: nat
    var finished: bool
    /** `CARDS_PER_SECTION`. */
    const perSection: nat

    ghost predicate Valid()
      reads this
    {
      && perSection > 0
      && (forall i :: 0 <= i < |sections| ==> |sections[i]| == perSection)
      && currentCard < perSection
      && currentSection <= |sections|
      && (finished ==> currentSection == |sections|)
    }

    /** The rest of `Set::load`: a set at section 0, card 0, named "Default". */
    constructor (cards: seq<Card>, sections: seq<seq<Card>>, perSection: nat)
      requires perSection > 0
      requires forall i :: 0 <= i < |sections| ==> |sections[i]| == perSection
      ensures Valid()
      ensures this.name == "Default" && this.cards == cards && this.sections == sections
      ensures this.perSection == perSection
      ensures currentSection == 0 && currentCard == 0 && !finished
    {
      this.name := "Default";
      this.cards := cards;
      this.sections := sections;
      this.perSection := perSection;
      this.currentSection := 0;
      this.currentCard := 0;
      this.finished := false;
    }

    /**
     * `get_current_card`: the card at the current position of the current
     * section; None for the panic of indexing past the last section, which
     * happens only when the deck holds no full section.
     */
    function CurrentCard(): (c: Option<Card>)
      reads this
      requires Valid() && !finished
      ensures c.None? <==> currentSection == |sections|
      ensures c.Some? ==> c.value in sections[currentSection]
    {
      if currentSection < |sections| then Some(sections[currentSection][currentCard]) else None
    }

    /**
     * `answer`: a correct answer masters the card and moves on, wrapping to
     * the next section (and exiting after the last one); a wrong answer marks
     * the card as being learned and stays put. Only the sectioned copy of the
     * card changes; `cards` keeps its loaded state. None is the panic of
     * indexing past the last section, when the deck holds no full section.
     */
    method Answer(ans: string) returns (r: Option<bool>)
      requires Valid() && !finished
      modifies this
      ensures Valid()
      ensures r.None? <==> old(currentSection) == old(|sections|)
      ensures r.None? ==> sections == old(sections) && currentSection == old(currentSection) && currentCard == old(currentCard) && !finished
      ensures r.Some? ==> (r.value <==> ans == old(CurrentCard()).value.answer)
      ensures r.Some? ==> var c := old(CurrentCard()).value;
        sections == old(sections)[old(currentSection) := old(sections[currentSection])[old(currentCard) :=
          Card(c.question, c.answer, if r.value then Mastered else Learning)]]
      ensures r == Some(false) ==> currentSection == old(currentSection) && currentCard == old(currentCard) && !finished
      ensures r == Some(true) && old(currentCard) + 1 < perSection ==>
        currentSection == old(currentSection) && currentCard == old(currentCard) + 1 && !finished
      ensures r == Some(true) && old(currentCard) + 1 == perSection ==>
        currentSection == old(currentSection) + 1 && currentCard == 0
      ensures finished <==> r == Some(true) && old(currentCard) + 1 == perSection && old(currentSection) + 1 == |sections|
      ensures cards == old(cards) && name == old(name)
    {
      if currentSection >= |sections| {
        return None;
      }
      var c := sections[currentSection][currentCard];
      var section := sections[currentSection];
      if ans == c.answer {
        sections := sections[currentSection := section[currentCard := Card(c.question, c.answer, Mastered)]];
        currentCard := currentCard + 1;
        if currentCard >= perSection {
          currentCard := 0;
          currentSection := currentSection + 1;
          if currentSection >= |sections| {
            finished := true;
          }
        }
        return Some(true);
      }
      sections := sections[currentSection := section[currentCard := Card(c.question, c.answer, Learning)]];
      return Some(false);
    }
  }

  /** `Set::load` after the file has been read: cards, then sections. */
  method Load(raw: string, perSection: nat) returns (r: Option<StudySet>)
    requires perSection > 0
    ensures r.Some? <==> AllCards(Lines(raw))
    ensures r.Some? ==> fresh(r.value) && r.value.Valid() && !r.value.finished
    ensures r.Some? ==> r.value.currentSection == 0 && r.value.currentCard == 0
    ensures r.Some? ==> |r.value.cards| == |Lines(raw)| && Chunked(r.value.cards, perSection, r.value.sections)
  {
    var cards := LoadCards(Lines(raw));
    if cards.None? {
      return None;
    }
    var sections := ChunkSections(cards.value, perSection);
    var loaded := new StudySet(cards.value, sections, perSection);
    r := Some(loaded);
  }
}
