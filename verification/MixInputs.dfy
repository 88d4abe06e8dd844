/** What a mix takes in: which records it accepts, on their words, and what a cap leaves of a source. */
module MixInputs {
  import opened Wrappers
  import opened Order
  import opened Leases
  import opened Devices
  import opened Characters
  import opened Mix

  // ----- Words in any case, with blanks around them --------------------------------------------

  /** The same letter or sign, in capitals or not. */
  predicate SameLetter(c: char, small: char) { c == small || exists k :: 0 <= k < 26 && CAPITALS[k] == c && SMALL[k] == small }

  predicate NoCapitals(word: string) { forall i :: 0 <= i < |word| ==> word[i] !in CAPITALS }

  /** The text is the word, in any case, with blanks around it. */
  ghost predicate Reads(text: string, word: string) {
    exists from, to :: 0 <= from <= to <= |text| && ReadsBetween(text, from, to, word)
  }

  predicate ReadsBetween(text: string, from: nat, to: nat, word: string)
    requires from <= to <= |text|
  {
    && Blank(text[..from]) && Blank(text[to..]) && to - from == |word|
    && forall i :: 0 <= i < |word| ==> SameLetter(text[from + i], word[i])
  }

  lemma LowerCharMeans(c: char, small: char)
    requires small !in CAPITALS
    ensures LowerChar(c) == small <==> SameLetter(c, small)
  {
    if 'A' <= c <= 'Z' {
      var k := c as int - 'A' as int;
      LetterAt(k);
      assert CAPITALS[k] == c;
    }
    if k :| 0 <= k < 26 && CAPITALS[k] == c && SMALL[k] == small {
      LetterAt(k);
    }
  }

  lemma {:induction false} LowerMeans(s: string, word: string)
    requires NoCapitals(word)
    ensures Lower(s) == word <==> |s| == |word| && forall i :: 0 <= i < |s| ==> SameLetter(s[i], word[i])
  {
    if s != [] && word != [] {
      LowerMeans(s[1..], word[1..]);
      LowerCharMeans(s[0], word[0]);
      assert s == [s[0]] + s[1..] && word == [word[0]] + word[1..];
    }
  }

  predicate EndsInk(word: string) { word != [] && !IsSpace(word[0]) && !IsSpace(word[|word| - 1]) }

  lemma SameInk(c: char, small: char)
    requires SameLetter(c, small)
    ensures IsSpace(c) <==> IsSpace(small)
  {
    if k :| 0 <= k < 26 && CAPITALS[k] == c && SMALL[k] == small {
      LetterAt(k);
    }
  }

  lemma LowerBetween(text: string, from: nat, to: nat, word: string)
    requires from <= to <= |text| && NoCapitals(word)
    ensures Lower(text[from..to]) == word <==>
            to - from == |word| && forall i :: 0 <= i < |word| ==> SameLetter(text[from + i], word[i])
  {
    LowerMeans(text[from..to], word);
    assert forall i :: 0 <= i < to - from ==> text[from..to][i] == text[from + i];
  }

  lemma ReadsStripped(text: string, from: nat, to: nat, word: string)
    requires NoCapitals(word) && EndsInk(word) && from <= to <= |text| && ReadsBetween(text, from, to, word)
    ensures Lower(Strip(text)) == word
  {
    SameInk(text[from], word[0]);
    SameInk(text[from + (|word| - 1)], word[|word| - 1]);
    StripMeans(text, from, to);
    LowerBetween(text, from, to, word);
  }

  /** A text that is stripped and lowered is the word exactly if it reads so. */
  lemma ReadsExactly(text: string, word: string)
    requires NoCapitals(word) && EndsInk(word)
    ensures Lower(Strip(text)) == word <==> Reads(text, word)
  {
    if Lower(Strip(text)) == word {
      var a, b := CoreOf(text);
      StripMeans(text, a, b);
      LowerBetween(text, a, b, word);
      assert ReadsBetween(text, a, b, word);
    }
    if from, to :| 0 <= from <= to <= |text| && ReadsBetween(text, from, to, word) {
      ReadsStripped(text, from, to, word);
    }
  }

  lemma EmptyExactly(text: string)
    ensures Strip(text) == [] <==> Blank(text)
  {
    var from, to := CoreOf(text);
    StripMeans(text, from, to);
    if Strip(text) == [] {
      assert text == text[..from] + text[to..];
    }
    if Blank(text) {
      TrimBlank(text);
    }
  }

  // ----- Which records are accepted ------------------------------------------------------------

  const DISTRUSTED := ["shadow_prediction", "shadow_model", "legacy_classifier", "legacy_router", "self_prediction", "model_prediction"]

  lemma DistrustedWords()
    ensures forall word :: word in UNTRUSTED <==> word in DISTRUSTED
    ensures "" !in UNTRUSTED
  {
    assert DISTRUSTED[0] in DISTRUSTED && DISTRUSTED[1] in DISTRUSTED && DISTRUSTED[2] in DISTRUSTED;
    assert DISTRUSTED[3] in DISTRUSTED && DISTRUSTED[4] in DISTRUSTED && DISTRUSTED[5] in DISTRUSTED;
  }

  predicate Plain(word: string) {
    && word != [] && word[0] != '_' && word[|word| - 1] != '_'
    && forall i :: 0 <= i < |word| ==> 'a' <= word[i] <= 'z' || word[i] == '_'
  }

  lemma PlainIsInk(word: string)
    requires Plain(word)
    ensures NoCapitals(word) && EndsInk(word)
  {
    forall i, k | 0 <= i < |word| && 0 <= k < 26 ensures word[i] != CAPITALS[k] {
      LetterAt(k);
    }
  }

  lemma PlainWord(k: nat)
    requires k < |DISTRUSTED|
    ensures NoCapitals(DISTRUSTED[k]) && EndsInk(DISTRUSTED[k])
  {
    PlainSpelling(k);
    PlainIsInk(DISTRUSTED[k]);
  }

  lemma PlainSpelling(k: nat)
    requires k < |DISTRUSTED|
    ensures Plain(DISTRUSTED[k])
  {
  }

  lemma UnlabeledWord()
    ensures NoCapitals("unlabeled") && EndsInk("unlabeled")
  {
    PlainIsInk("unlabeled");
  }

  /** The text names a source whose labels are not trusted. */
  ghost predicate NamesDistrusted(text: string) { exists k :: 0 <= k < |DISTRUSTED| && Reads(text, DISTRUSTED[k]) }

  lemma DistrustedExactly(text: string)
    ensures Strip(text) == "" || Lower(Strip(text)) !in UNTRUSTED <==> !NamesDistrusted(text)
  {
    DistrustedWords();
    forall k | 0 <= k < |DISTRUSTED| ensures Lower(Strip(text)) == DISTRUSTED[k] <==> Reads(text, DISTRUSTED[k]) {
      PlainWord(k);
      ReadsExactly(text, DISTRUSTED[k]);
    }
  }

  /**
   A record without targets is accepted exactly when unlabelled ones are. One with targets is accepted unless it calls itself
   unlabelled where that is not allowed, or names a source whose labels are not trusted, in any case and with any blanks around.
   */
  lemma AdmissibleExactly(r: Record, options: Options)
    ensures r.targets == map[] ==> (Admissible(r, options) <==> options.allowUnlabeled)
    ensures r.targets != map[] ==>
              (Admissible(r, options) <==> (Reads(r.labelStatus, "unlabeled") ==> options.allowUnlabeled) &&
                                           (r.labelSource.Some? ==> !NamesDistrusted(r.labelSource.value)))
  {
    UnlabeledWord();
    ReadsExactly(r.labelStatus, "unlabeled");
    if r.labelSource.Some? {
      DistrustedExactly(r.labelSource.value);
    }
  }

  // ----- What a cap leaves ---------------------------------------------------------------------

  /** Some of the records, in their order. */
  ghost predicate InOrder(some: seq<Record>, all: seq<Record>) {
    exists places: seq<nat> ::
      |places| == |some| && (forall i :: 0 <= i < |some| ==> places[i] < |all| && some[i] == all[places[i]]) &&
      forall i, j :: 0 <= i < j < |some| ==> places[i] < places[j]
  }

  /** A source without a cap, or no longer than its cap, is taken whole; of a longer one exactly as many records as the cap, in order. */
  lemma SelectedMeans(s: Source, draw: Draw)
    requires CapValid(s) && ProperDraw(draw) && DrawFits(s, draw)
    ensures s.cap.None? || |s.records| <= s.cap.value ==> Selected(s, draw) == s.records
    ensures s.cap.Some? && |s.records| > s.cap.value ==> |Selected(s, draw)| == s.cap.value && InOrder(Selected(s, draw), s.records)
  {
    if s.cap.Some? && |s.records| > s.cap.value {
      var places := draw(s.name, |s.records|, s.cap.value);
      assert ProperIndices(places, |s.records|, s.cap.value);
      assert forall i :: 0 <= i < |places| ==> Selected(s, draw)[i] == s.records[places[i]];
    }
  }

  /** A cap is refused exactly when it would leave nothing. */
  lemma CapRefused(s: Source)
    ensures !CapValid(s) <==> exists cap :: s.cap == Some(cap) && cap <= 0
  {
  }

  // ----- Which of several records is kept ------------------------------------------------------

  function TagAll(records: seq<Record>, name: string): (r: seq<Tagged>)
    ensures |r| == |records|
  {
    seq(|records|, i requires 0 <= i < |records| => Tagged(records[i], name))
  }

  /** Everything selected from the first `n` sources in order, each under the name of its source. */
  function Offered(batches: seq<Batch>, n: nat): seq<Tagged>
    requires n <= |batches|
  {
    if n == 0 then [] else Offered(batches, n - 1) + TagAll(batches[n - 1].records, batches[n - 1].name)
  }

  /** The first one offered with its content. */
  ghost predicate FirstIn(t: Tagged, offered: seq<Tagged>) {
    exists i :: 0 <= i < |offered| && offered[i] == t && NewAt(offered, i)
  }

  ghost predicate NewAt(offered: seq<Tagged>, i: nat)
    requires i < |offered|
  {
    forall j :: 0 <= j < i ==> ContentOf(offered[j].record) != ContentOf(offered[i].record)
  }

  /** What was seen are the contents offered, and what is kept came first. */
  ghost predicate KeepsFirst(st: State, offered: seq<Tagged>) {
    && (forall c :: c in st.seen <==> Holds(offered, c))
    && (forall t :: t in st.output ==> FirstIn(t, offered))
  }

  lemma FirstStaysFirst(t: Tagged, offered: seq<Tagged>, next: Tagged)
    requires FirstIn(t, offered)
    ensures FirstIn(t, offered + [next])
  {
    var i :| 0 <= i < |offered| && offered[i] == t && NewAt(offered, i);
    assert (offered + [next])[i] == t && NewAt(offered + [next], i);
  }

  lemma HoldsNext(offered: seq<Tagged>, next: Tagged, c: Content)
    ensures Holds(offered + [next], c) <==> Holds(offered, c) || ContentOf(next.record) == c
  {
    var more := offered + [next];
    if Holds(offered, c) {
      var k :| 0 <= k < |offered| && ContentOf(offered[k].record) == c;
      assert ContentOf(more[k].record) == c;
    }
    if ContentOf(next.record) == c {
      assert ContentOf(more[|offered|].record) == c;
    }
  }

  lemma StepKeepsFirst(st: State, offered: seq<Tagged>, r: Record, name: string, options: Options)
    requires KeepsFirst(st, offered) && Step(st, r, name, options).Some?
    ensures KeepsFirst(Step(st, r, name, options).value, offered + [Tagged(r, name)])
  {
    var next := Tagged(r, name);
    var after := Step(st, r, name, options).value;
    forall c ensures c in after.seen <==> Holds(offered + [next], c) {
      HoldsNext(offered, next, c);
    }
    forall t | t in after.output ensures FirstIn(t, offered + [next]) {
      if t in st.output {
        FirstStaysFirst(t, offered, next);
      } else {
        assert !Holds(offered, ContentOf(r));
        assert (offered + [next])[|offered|] == t && NewAt(offered + [next], |offered|);
      }
    }
  }

  lemma TagNext(offered: seq<Tagged>, selected: seq<Record>, name: string)
    requires selected != []
    ensures var n := |selected| - 1;
            offered + TagAll(selected[..n], name) + [Tagged(selected[n], name)] == offered + TagAll(selected, name)
  {
  }

  lemma {:induction false} TakeAllKeepsFirst(st: State, offered: seq<Tagged>, selected: seq<Record>, name: string, options: Options)
    requires KeepsFirst(st, offered) && TakeAll(st, selected, name, options).Some?
    ensures KeepsFirst(TakeAll(st, selected, name, options).value, offered + TagAll(selected, name))
    decreases |selected|
  {
    if selected == [] {
      assert offered + TagAll(selected, name) == offered;
    } else {
      var n := |selected| - 1;
      TagNext(offered, selected, name);
      TakeAllKeepsFirst(st, offered, selected[..n], name, options);
      StepKeepsFirst(TakeAll(st, selected[..n], name, options).value, offered + TagAll(selected[..n], name), selected[n], name, options);
    }
  }

  lemma {:induction false} TakeSourcesKeepsFirst(batches: seq<Batch>, options: Options, n: nat)
    requires n <= |batches| && TakeSources(batches, options, n).Some?
    ensures KeepsFirst(TakeSources(batches, options, n).value, Offered(batches, n))
  {
    if n > 0 {
      TakeSourcesKeepsFirst(batches, options, n - 1);
      var batch := batches[n - 1];
      TakeAllKeepsFirst(TakeSources(batches, options, n - 1).value, Offered(batches, n - 1), batch.records, batch.name, options);
    }
  }

  /** Of several records with one content a mix keeps the first selected, source by source, under the name of its source. */
  lemma FirstIsKept(r: Option<Mixed>, sources: seq<Source>, draw: Draw, options: Options)
    requires AllFit(sources, draw) && IsMixOf(r, sources, draw, options) && r.Some?
    ensures forall t :: t in r.value.records ==> FirstIn(t, Offered(Batches(sources, draw), |sources|))
  {
    var batches := Batches(sources, draw);
    var taken := TakeSources(batches, options, |sources|);
    TakeSourcesKeepsFirst(batches, options, |sources|);
    forall t | t in r.value.records ensures FirstIn(t, Offered(batches, |sources|)) {
      assert t in multiset(r.value.records);
      assert t in multiset(taken.value.output);
    }
  }
}
