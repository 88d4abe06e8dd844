/**
 Index bookkeeping of the scoring model: records and their options are flattened into one
 candidate batch and scored in one of two layouts, flat or padded per record. Scoring itself is
 an arbitrary function of a state and a candidate.
 */
module Candidates {
  import Json

  datatype Kind = Noul | Choice | Score

  datatype Question = Question(name: string, kind: Kind, instructions: string, options: seq<string>)

  datatype Record = Record(state: string, questions: seq<Question>)

  datatype Output<R> = Output(recordIndex: nat, name: string, kind: Kind, options: seq<string>, logits: seq<R>)

  datatype Head = OptionQuery | Flat

  /** The prompt one option becomes. */
  function CandidateText(q: Question, option: string, index: nat): string {
    match q.kind
    case Noul => "Question: " + q.instructions + "\nAnswer: " + option
    case Score => "Question: " + q.instructions + "\nOrdered level " + Json.Decimal(index + 1) + " of " + Json.Decimal(|q.options|) + ": " + option
    case Choice => "Question: " + q.instructions + "\nOption: " + option
  }

  function QuestionTexts(q: Question): (r: seq<string>)
    ensures |r| == |q.options|
  {
    seq(|q.options|, k requires 0 <= k < |q.options| => CandidateText(q, q.options[k], k))
  }

  // ----- What the scores should be ---------------------------------------------------------

  /** `roll(1)`, and only for more than one record. */
  function Rolled<T>(s: seq<T>, shuffle: bool): (r: seq<T>)
    ensures |r| == |s|
  {
    if shuffle && |s| > 1 then [s[|s| - 1]] + s[..|s| - 1] else s
  }

  function Scores<R>(score: (string, string) -> R, state: string, q: Question): (r: seq<R>)
    ensures |r| == |q.options|
  {
    seq(|q.options|, k requires 0 <= k < |q.options| => score(state, QuestionTexts(q)[k]))
  }

  /** The questions of the first `n` records, in order, each with its record's index. */
  function Listing(records: seq<Record>, n: nat): seq<(nat, Question)>
    requires n <= |records|
  {
    if n == 0 then [] else Listing(records, n - 1) + Tagged(n - 1, records[n - 1].questions)
  }

  function Tagged(index: nat, questions: seq<Question>): seq<(nat, Question)> {
    seq(|questions|, q requires 0 <= q < |questions| => (index, questions[q]))
  }

  /** One output per question, holding one score per option, in order. */
  ghost predicate Answers<R(!new)>(records: seq<Record>, shuffle: bool, score: (string, string) -> R, outputs: seq<Output<R>>) {
    var listing := Listing(records, |records|);
    && |outputs| == |listing|
    && forall k :: 0 <= k < |listing| ==> (listing[k].0 < |records| && outputs[k] == AnswerTo(records, shuffle, score, listing[k]))
  }

  function AnswerTo<R>(records: seq<Record>, shuffle: bool, score: (string, string) -> R, entry: (nat, Question)): Output<R>
    requires entry.0 < |records|
  {
    Output(entry.0, entry.1.name, entry.1.kind, entry.1.options,
           Scores(score, Rolled(States(records), shuffle)[entry.0], entry.1))
  }

  function States(records: seq<Record>): (r: seq<string>)
    ensures |r| == |records|
  {
    seq(|records|, i requires 0 <= i < |records| => records[i].state)
  }

  /** Shuffling scores every record against its predecessor's state, the first against the last one's. */
  lemma ShuffledState(records: seq<Record>, i: nat)
    requires i < |records|
    ensures Rolled(States(records), true)[i] == records[(i + |records| - 1) % |records|].state
    ensures Rolled(States(records), false)[i] == records[i].state
  {
    if i > 0 {
      assert (i + |records| - 1) % |records| == i - 1;
    }
  }

  // ----- Flattening ------------------------------------------------------------------------

  /** A question's place in both layouts: columns of its record's row, and positions in the flat batch. */
  datatype Slot = Slot(recordIndex: nat, question: Question, localStart: nat, localEnd: nat, globalStart: nat, globalEnd: nat)

  function Sum(counts: seq<nat>): nat {
    if counts == [] then 0 else Sum(counts[..|counts| - 1]) + counts[|counts| - 1]
  }

  /** Where record `r`'s candidates start in the flat batch. */
  function Base(counts: seq<nat>, r: nat): nat
    requires r <= |counts|
  {
    Sum(counts[..r])
  }

  lemma BaseNext(counts: seq<nat>, r: nat)
    requires r < |counts|
    ensures Base(counts, r + 1) == Base(counts, r) + counts[r]
  {
    assert counts[..r + 1][..r] == counts[..r];
  }

  lemma {:induction false} BaseMonotone(counts: seq<nat>, a: nat, b: nat)
    requires a <= b <= |counts|
    ensures Base(counts, a) <= Base(counts, b)
  {
    if a < b {
      BaseNext(counts, b - 1);
      BaseMonotone(counts, a, b - 1);
    }
  }

  ghost predicate Placed(slot: Slot, texts: seq<string>, owners: seq<nat>, counts: seq<nat>) {
    && |owners| == |texts|
    && slot.recordIndex < |counts| && slot.localStart <= slot.localEnd <= counts[slot.recordIndex]
    && slot.globalStart == Base(counts, slot.recordIndex) + slot.localStart
    && slot.globalEnd == Base(counts, slot.recordIndex) + slot.localEnd <= |texts|
    && texts[slot.globalStart..slot.globalEnd] == QuestionTexts(slot.question)
    && forall i :: slot.globalStart <= i < slot.globalEnd ==> owners[i] == slot.recordIndex
  }

  ghost predicate AllPlaced(slots: seq<Slot>, texts: seq<string>, owners: seq<nat>, counts: seq<nat>) {
    forall k :: 0 <= k < |slots| ==> Placed(slots[k], texts, owners, counts)
  }

  ghost predicate Lists(slots: seq<Slot>, listing: seq<(nat, Question)>) {
    && |slots| == |listing|
    && forall k :: 0 <= k < |slots| ==> (slots[k].recordIndex, slots[k].question) == listing[k]
  }

  /** Nothing has been counted past record `r`. */
  ghost predicate CountedTo(counts: seq<nat>, r: nat, total: nat) {
    && r < |counts| && Base(counts, r) + counts[r] == total
    && forall j :: r < j < |counts| ==> counts[j] == 0
  }

  /** Earlier places survive more candidates of the current record. */
  lemma StillPlaced(slots: seq<Slot>, texts: seq<string>, owners: seq<nat>, counts: seq<nat>, r: nat,
                    moreTexts: seq<string>, moreOwners: seq<nat>, count: nat)
    requires AllPlaced(slots, texts, owners, counts) && |moreTexts| == |moreOwners| && |texts| == |owners|
    requires r < |counts| && counts[r] <= count
    requires forall k :: 0 <= k < |slots| ==> slots[k].recordIndex <= r
    ensures AllPlaced(slots, texts + moreTexts, owners + moreOwners, counts[r := count])
  {
    forall k | 0 <= k < |slots| ensures Placed(slots[k], texts + moreTexts, owners + moreOwners, counts[r := count]) {
      var s := slots[k];
      assert Placed(s, texts, owners, counts);
      assert counts[r := count][..s.recordIndex] == counts[..s.recordIndex];
      assert (texts + moreTexts)[s.globalStart..s.globalEnd] == texts[s.globalStart..s.globalEnd];
    }
  }

  /** One question's options join the batch. */
  method AppendQuestion(texts: seq<string>, owners: seq<nat>, count: nat, recordIndex: nat, question: Question)
    returns (texts': seq<string>, owners': seq<nat>, count': nat)
    requires |texts| == |owners|
    ensures texts' == texts + QuestionTexts(question)
    ensures owners' == owners + seq(|question.options|, _ => recordIndex)
    ensures count' == count + |question.options|
  {
    texts', owners', count' := texts, owners, count;
    for k := 0 to |question.options|
      invariant texts' == texts + QuestionTexts(question)[..k]
      invariant owners' == owners + seq(k, _ => recordIndex)
      invariant count' == count + k
    {
      texts' := texts' + [CandidateText(question, question.options[k], k)];
      owners' := owners' + [recordIndex];
      count' := count' + 1;
    }
    assert QuestionTexts(question)[..|question.options|] == QuestionTexts(question);
  }

  lemma NewSlotPlaced(texts: seq<string>, owners: seq<nat>, counts: seq<nat>, r: nat, q: Question)
    requires |texts| == |owners| && CountedTo(counts, r, |texts|)
    ensures var n := |q.options|;
            var slot := Slot(r, q, counts[r], counts[r] + n, |texts|, |texts| + n);
            Placed(slot, texts + QuestionTexts(q), owners + seq(n, _ => r), counts[r := counts[r] + n])
    ensures CountedTo(counts[r := counts[r] + |q.options|], r, |texts| + |q.options|)
  {
    var n := |q.options|;
    assert counts[r := counts[r] + n][..r] == counts[..r];
    assert (texts + QuestionTexts(q))[|texts|..|texts| + n] == QuestionTexts(q);
  }

  /** Everything collected so far is in place, and belongs to records up to `r`. */
  ghost predicate Filling(texts: seq<string>, owners: seq<nat>, counts: seq<nat>, slots: seq<Slot>, r: nat) {
    && |texts| == |owners| && CountedTo(counts, r, |texts|)
    && AllPlaced(slots, texts, owners, counts) && forall k :: 0 <= k < |slots| ==> slots[k].recordIndex <= r
  }

  /** One question's candidates, and its slot. */
  method AppendSlot(texts: seq<string>, owners: seq<nat>, counts: seq<nat>, slots: seq<Slot>, r: nat, question: Question)
    returns (texts': seq<string>, owners': seq<nat>, counts': seq<nat>, slot: Slot)
    requires Filling(texts, owners, counts, slots, r)
    ensures Filling(texts', owners', counts', slots + [slot], r) && |counts'| == |counts|
    ensures slot.recordIndex == r && slot.question == question
    ensures owners' == owners + seq(|question.options|, _ => r)
  {
    var globalStart, localStart := |texts|, counts[r];
    NewSlotPlaced(texts, owners, counts, r, question);
    StillPlaced(slots, texts, owners, counts, r, QuestionTexts(question), seq(|question.options|, _ => r), localStart + |question.options|);
    var count;
    texts', owners', count := AppendQuestion(texts, owners, localStart, r, question);
    counts' := counts[r := count];
    slot := Slot(r, question, localStart, count, globalStart, |texts'|);
  }

  lemma ListsNext(slots: seq<Slot>, base: nat, slot: Slot, listing: seq<(nat, Question)>, q: nat)
    requires base <= |slots| && q < |listing| && Lists(slots[base..], listing[..q]) && (slot.recordIndex, slot.question) == listing[q]
    ensures Lists((slots + [slot])[base..], listing[..q + 1])
  {
    assert (slots + [slot])[base..] == slots[base..] + [slot];
  }

  /** One record's questions, with their running local and global offsets. */
  method AppendRecord(texts: seq<string>, owners: seq<nat>, counts: seq<nat>, slots: seq<Slot>, r: nat, questions: seq<Question>)
    returns (texts': seq<string>, owners': seq<nat>, counts': seq<nat>, slots': seq<Slot>)
    requires Filling(texts, owners, counts, slots, r)
    ensures Filling(texts', owners', counts', slots', r) && |counts'| == |counts|
    ensures slots <= slots' && Lists(slots'[|slots|..], Tagged(r, questions))
    ensures owners <= owners' && forall i :: |owners| <= i < |owners'| ==> owners'[i] == r
  {
    texts', owners', counts', slots' := texts, owners, counts, slots;
    for q := 0 to |questions|
      invariant Filling(texts', owners', counts', slots', r) && |counts'| == |counts|
      invariant slots <= slots' && Lists(slots'[|slots|..], Tagged(r, questions)[..q])
      invariant owners <= owners' && forall i :: |owners| <= i < |owners'| ==> owners'[i] == r
    {
      var slot;
      texts', owners', counts', slot := AppendSlot(texts', owners', counts', slots', r, questions[q]);
      ListsNext(slots', |slots|, slot, Tagged(r, questions), q);
      slots' := slots' + [slot];
    }
    assert Tagged(r, questions)[..|questions|] == Tagged(r, questions);
  }

  lemma NextRecord(counts: seq<nat>, r: nat, total: nat)
    requires CountedTo(counts, r, total) && r + 1 < |counts|
    ensures CountedTo(counts, r + 1, total)
  {
    BaseNext(counts, r);
  }

  lemma ListsConcat(a: seq<Slot>, b: seq<Slot>, x: seq<(nat, Question)>, y: seq<(nat, Question)>)
    requires Lists(a, x) && Lists(b, y)
    ensures Lists(a + b, x + y)
  {
  }

  /** The whole batch. */
  method Collect(records: seq<Record>) returns (texts: seq<string>, owners: seq<nat>, counts: seq<nat>, slots: seq<Slot>)
    requires records != []
    ensures |texts| == |owners| && |counts| == |records| && Base(counts, |counts|) == |texts|
    ensures AllPlaced(slots, texts, owners, counts) && Lists(slots, Listing(records, |records|))
    ensures forall i :: 0 <= i < |owners| ==> owners[i] < |records|
  {
    texts, owners, slots := [], [], [];
    counts := seq(|records|, _ => 0);
    assert counts[..0] == [];
    for r := 0 to |records|
      invariant |texts| == |owners| && |counts| == |records|
      invariant r < |records| ==> CountedTo(counts, r, |texts|)
      invariant r == |records| ==> CountedTo(counts, r - 1, |texts|)
      invariant AllPlaced(slots, texts, owners, counts) && forall k :: 0 <= k < |slots| ==> slots[k].recordIndex <= r
      invariant Lists(slots, Listing(records, r))
      invariant forall i :: 0 <= i < |owners| ==> owners[i] < |records|
    {
      ghost var earlier := slots;
      texts, owners, counts, slots := AppendRecord(texts, owners, counts, slots, r, records[r].questions);
      ListsConcat(earlier, slots[|earlier|..], Listing(records, r), Tagged(r, records[r].questions));
      assert slots == earlier + slots[|earlier|..];
      if r + 1 < |records| {
        NextRecord(counts, r, |texts|);
      }
    }
    BaseNext(counts, |records| - 1);
  }

  // ----- Scoring in either layout ----------------------------------------------------------

  function Longest(rows: seq<seq<string>>): (w: nat)
    ensures forall r :: 0 <= r < |rows| ==> |rows[r]| <= w
    ensures if rows == [] then w == 0 else exists r :: 0 <= r < |rows| && |rows[r]| == w
  {
    if rows == [] then 0
    else
      var w := Longest(rows[..|rows| - 1]);
      assert forall r :: 0 <= r < |rows| - 1 ==> rows[r] == rows[..|rows| - 1][r];
      if |rows[|rows| - 1]| > w then |rows[|rows| - 1]| else w
  }

  /** `pad_sequence`: rows as long as the longest, filled up with padding. */
  function Padded(rows: seq<seq<string>>, width: nat): (r: seq<seq<string>>)
    requires forall i :: 0 <= i < |rows| ==> |rows[i]| <= width
    ensures |r| == |rows| && forall i :: 0 <= i < |rows| ==> (|r[i]| == width && rows[i] <= r[i])
  {
    seq(|rows|, i requires 0 <= i < |rows| => rows[i] + seq(width - |rows[i]|, _ => ""))
  }

  /** The rows of the padded layout: each record's candidates, cut from the flat batch by a running offset. */
  method RowsOf(texts: seq<string>, counts: seq<nat>) returns (rows: seq<seq<string>>)
    requires Base(counts, |counts|) == |texts|
    ensures |rows| == |counts|
    ensures forall r :: 0 <= r < |rows| ==> (|rows[r]| == counts[r] &&
              forall c :: 0 <= c < counts[r] ==> PlaceOf(counts, r, c) < |texts| && rows[r][c] == texts[PlaceOf(counts, r, c)])
  {
    rows := [];
    var offset := 0;
    assert counts[..0] == [];
    for r := 0 to |counts|
      invariant offset == Base(counts, r)
      invariant |rows| == r
      invariant forall k :: 0 <= k < r ==> (|rows[k]| == counts[k] &&
                forall c :: 0 <= c < counts[k] ==> PlaceOf(counts, k, c) < |texts| && rows[k][c] == texts[PlaceOf(counts, k, c)])
    {
      BaseNext(counts, r);
      BaseMonotone(counts, r + 1, |counts|);
      rows := rows + [texts[offset..offset + counts[r]]];
      offset := offset + counts[r];
    }
  }

  /** Column `c` of record `r`, in the flat batch. */
  function PlaceOf(counts: seq<nat>, r: nat, c: nat): nat
    requires r <= |counts|
  {
    Base(counts, r) + c
  }

  /** Row `r`, column `c` of the padded layout holds the score of that candidate of record `r`. */
  ghost predicate ScoredAt<R(!new)>(states: seq<string>, texts: seq<string>, counts: seq<nat>, shuffle: bool,
                                    score: (string, string) -> R, logits: seq<seq<R>>, r: nat, c: nat)
    requires r < |counts| == |states| == |logits|
  {
    && c < |logits[r]| && PlaceOf(counts, r, c) < |texts|
    && logits[r][c] == score(Rolled(states, shuffle)[r], texts[PlaceOf(counts, r, c)])
  }

  ghost predicate RowsScored<R(!new)>(states: seq<string>, texts: seq<string>, counts: seq<nat>, shuffle: bool,
                                      score: (string, string) -> R, logits: seq<seq<R>>)
    requires |counts| == |states|
  {
    && |logits| == |counts|
    && forall r, c :: 0 <= r < |counts| && 0 <= c < counts[r] ==> ScoredAt(states, texts, counts, shuffle, score, logits, r, c)
  }

  /** The padded layout: one score per row and column, `fill` where the mask is off. */
  method PaddedLogits<R(!new)>(states: seq<string>, texts: seq<string>, counts: seq<nat>, shuffle: bool,
                         score: (string, string) -> R, fill: R)
    returns (logits: seq<seq<R>>)
    requires |counts| == |states| && Base(counts, |counts|) == |texts|
    ensures RowsScored(states, texts, counts, shuffle, score, logits)
  {
    var rows := RowsOf(texts, counts);
    var width := Longest(rows);
    var padded := Padded(rows, width);
    var rolled := Rolled(states, shuffle);
    logits := seq(|rows|, r requires 0 <= r < |rows| =>
      seq(width, c requires 0 <= c < width => if c < counts[r] then score(rolled[r], padded[r][c]) else fill));
    forall r, c | 0 <= r < |counts| && 0 <= c < counts[r] ensures ScoredAt(states, texts, counts, shuffle, score, logits, r, c) {
      assert rows[r] <= padded[r] && rows[r][c] == texts[PlaceOf(counts, r, c)];
    }
  }

  /** The flat layout: each candidate scored against the state its index points to. */
  method FlatLogits<R>(states: seq<string>, texts: seq<string>, owners: seq<nat>, shuffle: bool, score: (string, string) -> R)
    returns (logits: seq<R>)
    requires |owners| == |texts| && forall i :: 0 <= i < |owners| ==> owners[i] < |states|
    ensures |logits| == |texts|
    ensures forall i :: 0 <= i < |texts| ==> logits[i] == score(Rolled(states, shuffle)[owners[i]], texts[i])
  {
    var rolled := Rolled(states, shuffle);
    logits := seq(|texts|, i requires 0 <= i < |texts| => score(rolled[owners[i]], texts[i]));
  }

  lemma SlotText(slot: Slot, texts: seq<string>, owners: seq<nat>, counts: seq<nat>, k: nat)
    requires Placed(slot, texts, owners, counts) && k < |slot.question.options|
    ensures slot.localEnd - slot.localStart == slot.globalEnd - slot.globalStart == |slot.question.options|
    ensures slot.globalStart + k < |texts| && texts[slot.globalStart + k] == QuestionTexts(slot.question)[k]
    ensures owners[slot.globalStart + k] == slot.recordIndex
    ensures PlaceOf(counts, slot.recordIndex, slot.localStart + k) == slot.globalStart + k
  {
    assert |texts[slot.globalStart..slot.globalEnd]| == |QuestionTexts(slot.question)|;
    assert texts[slot.globalStart..slot.globalEnd][k] == texts[slot.globalStart + k];
  }

  lemma SlotSize(slot: Slot, texts: seq<string>, owners: seq<nat>, counts: seq<nat>)
    requires Placed(slot, texts, owners, counts)
    ensures slot.localEnd - slot.localStart == slot.globalEnd - slot.globalStart == |slot.question.options|
  {
    assert |texts[slot.globalStart..slot.globalEnd]| == |QuestionTexts(slot.question)|;
  }

  method PaddedSlice<R(!new)>(states: seq<string>, texts: seq<string>, owners: seq<nat>, counts: seq<nat>, shuffle: bool,
                        score: (string, string) -> R, logits: seq<seq<R>>, slot: Slot)
    returns (slice: seq<R>)
    requires Placed(slot, texts, owners, counts) && |counts| == |states|
    requires RowsScored(states, texts, counts, shuffle, score, logits)
    ensures slice == Scores(score, Rolled(states, shuffle)[slot.recordIndex], slot.question)
  {
    SlotSize(slot, texts, owners, counts);
    var row := logits[slot.recordIndex];
    if slot.localStart == slot.localEnd {
      return [];
    }
    assert ScoredAt(states, texts, counts, shuffle, score, logits, slot.recordIndex, slot.localEnd - 1);
    slice := row[slot.localStart..slot.localEnd];
    forall k | 0 <= k < |slice| ensures slice[k] == Scores(score, Rolled(states, shuffle)[slot.recordIndex], slot.question)[k] {
      SlotText(slot, texts, owners, counts, k);
      assert ScoredAt(states, texts, counts, shuffle, score, logits, slot.recordIndex, slot.localStart + k);
    }
  }

  method FlatSlice<R>(states: seq<string>, texts: seq<string>, owners: seq<nat>, counts: seq<nat>, shuffle: bool,
                      score: (string, string) -> R, logits: seq<R>, slot: Slot)
    returns (slice: seq<R>)
    requires Placed(slot, texts, owners, counts) && |logits| == |texts| && |counts| == |states|
    requires forall i :: 0 <= i < |owners| ==> owners[i] < |states|
    requires forall i :: 0 <= i < |texts| ==> logits[i] == score(Rolled(states, shuffle)[owners[i]], texts[i])
    ensures slice == Scores(score, Rolled(states, shuffle)[slot.recordIndex], slot.question)
  {
    SlotSize(slot, texts, owners, counts);
    slice := logits[slot.globalStart..slot.globalEnd];
    forall k | 0 <= k < |slice| ensures slice[k] == Scores(score, Rolled(states, shuffle)[slot.recordIndex], slot.question)[k] {
      SlotText(slot, texts, owners, counts, k);
    }
  }

  /** Either head gives every question one score per option, in order; no records give no outputs. */
  method ForwardRecords<R(!new)>(records: seq<Record>, head: Head, shuffle: bool, score: (string, string) -> R, fill: R)
    returns (outputs: seq<Output<R>>)
    ensures Answers(records, shuffle, score, outputs)
  {
    outputs := [];
    if records == [] {
      return;
    }
    var texts, owners, counts, slots := Collect(records);
    var states := States(records);
    var padded: seq<seq<R>> := [];
    var flat: seq<R> := [];
    match head {
      case OptionQuery => padded := PaddedLogits(states, texts, counts, shuffle, score, fill);
      case Flat => flat := FlatLogits(states, texts, owners, shuffle, score);
    }
    for k := 0 to |slots|
      invariant |outputs| == k
      invariant forall j :: 0 <= j < k ==> outputs[j] == AnswerTo(records, shuffle, score, (slots[j].recordIndex, slots[j].question))
    {
      var slot := slots[k];
      assert Placed(slot, texts, owners, counts);
      var logits;
      match head {
        case OptionQuery => logits := PaddedSlice(states, texts, owners, counts, shuffle, score, padded, slot);
        case Flat => logits := FlatSlice(states, texts, owners, counts, shuffle, score, flat, slot);
      }
      outputs := outputs + [Output(slot.recordIndex, slot.question.name, slot.question.kind, slot.question.options, logits)];
    }
  }

  /** The padded layout and the flat one it speeds up give the same outputs. */
  method BothLayouts<R(!new)>(records: seq<Record>, shuffle: bool, score: (string, string) -> R, fill: R)
    returns (padded: seq<Output<R>>, flat: seq<Output<R>>)
    ensures padded == flat
  {
    padded := ForwardRecords(records, OptionQuery, shuffle, score, fill);
    flat := ForwardRecords(records, Flat, shuffle, score, fill);
  }
}
