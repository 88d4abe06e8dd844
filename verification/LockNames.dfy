/** The texts behind lock names, character by character: which device spellings are accepted and which characters a file name keeps. */
module LockNames {
  import opened Wrappers
  import opened Leases
  import opened Devices
  import opened Characters
  import RegistryProtocol
  import RunLeases

  // ----- File names ----------------------------------------------------------------------------

  /** A letter, a digit, a dash or an underscore. */
  predicate Kept(c: char) { c in CAPITALS || c in SMALL || c in DIGITS || c == '-' || c == '_' }

  lemma KeptExactly(c: char)
    ensures SafeChar(c) == if Kept(c) then c else '-'
  {
    CapitalsAre(c);
    SmallAre(c);
    DigitsAre(c);
  }

  /** A lock's file name is as long as its name; letters, digits, dashes and underscores stay, and everything else becomes a dash. */
  lemma SafeNameExactly(name: string, i: nat)
    requires i < |name|
    ensures |SafeName(name)| == |name| && SafeName(name)[i] == if Kept(name[i]) then name[i] else '-'
  {
    KeptExactly(name[i]);
  }

  // ----- Device ids ----------------------------------------------------------------------------

  predicate Digits(s: string) { |s| > 0 && forall i :: 0 <= i < |s| ==> s[i] in DIGITS }

  lemma OnlyDigits(s: string)
    ensures AllDigits(s) <==> Digits(s)
  {
    forall c ensures c in DIGITS <==> IsDigit(c) {
      DigitsAre(c);
    }
  }

  /** Between blanks, the text is this. */
  ghost predicate Says(text: string, core: string) {
    exists from: nat, to: nat :: from <= to <= |text| && Surrounds(text, from, to) && text[from..to] == core
  }

  /** What is around these places is blank, and what is between them does not begin or end with a blank. */
  predicate Surrounds(text: string, from: nat, to: nat)
    requires from <= to <= |text|
  {
    && (forall i :: 0 <= i < from ==> text[i] in BLANKS) && (forall i :: to <= i < |text| ==> text[i] in BLANKS)
    && (from < to ==> text[from] !in BLANKS && text[to - 1] !in BLANKS)
  }

  lemma SurroundsIsCore(text: string, from: nat, to: nat)
    requires from <= to <= |text|
    ensures Surrounds(text, from, to) <==> Core(text, from, to)
  {
    forall c ensures c in BLANKS <==> IsSpace(c) {
      BlanksAre(c);
    }
    assert forall i :: 0 <= i < from ==> text[..from][i] == text[i];
    assert forall i :: 0 <= i < |text| - to ==> text[to..][i] == text[to + i];
    assert forall i :: to <= i < |text| ==> text[to..][i - to] == text[i];
  }

  /** Stripping leaves exactly what the text says between blanks. */
  lemma StripSays(text: string, core: string)
    ensures Strip(text) == core <==> Says(text, core)
  {
    var a, b := CoreOf(text);
    StripMeans(text, a, b);
    SurroundsIsCore(text, a, b);
    if Says(text, core) {
      var from: nat, to: nat :| from <= to <= |text| && Surrounds(text, from, to) && text[from..to] == core;
      SurroundsIsCore(text, from, to);
      StripMeans(text, from, to);
    }
  }

  /** The text names this card: by its digits, by `cuda` for card 0, or by `cuda:` and digits with blanks around them. */
  ghost predicate NamesCard(device: string, digits: string) {
    || (Says(device, "cuda") && digits == "0")
    || (Says(device, digits) && Digits(digits))
    || (exists tail :: Says(device, "cuda:" + tail) && Says(tail, digits) && Digits(digits))
  }

  lemma CardIsNamed(device: string, digits: string)
    requires CardDigits(device) == Some(digits)
    ensures NamesCard(device, digits)
  {
    var text := Strip(device);
    StripSays(device, text);
    OnlyDigits(digits);
    if text != "cuda" && !AllDigits(text) {
      var tail := text[|CUDA_PREFIX|..];
      assert text == "cuda:" + tail;
      StripSays(tail, digits);
    }
  }

  lemma NamedIsCard(device: string, digits: string)
    requires NamesCard(device, digits)
    ensures CardDigits(device) == Some(digits)
  {
    OnlyDigits(digits);
    OnlyDigits("cuda");
    assert "cuda"[0] == 'c' && "cuda:"[0] == 'c';
    if Says(device, "cuda") && digits == "0" {
      StripSays(device, "cuda");
    } else if Says(device, digits) && Digits(digits) {
      StripSays(device, digits);
    } else {
      var tail :| Says(device, "cuda:" + tail) && Says(tail, digits) && Digits(digits);
      StripSays(device, "cuda:" + tail);
      StripSays(tail, digits);
      assert ("cuda:" + tail)[0] == 'c' && |"cuda:" + tail| > 4;
      assert ("cuda:" + tail)[|CUDA_PREFIX|..] == tail;
    }
  }

  /** A device text is accepted exactly when it names a card, and its canonical id is `cuda:` with those digits. */
  lemma CanonicalExactly(device: string, id: string)
    ensures CanonicalDeviceId(device) == Some(id) <==> exists digits :: id == "cuda:" + digits && NamesCard(device, digits)
  {
    CanonicalIsPrefixedDigits(device);
    if CanonicalDeviceId(device) == Some(id) {
      CardIsNamed(device, CardDigits(device).value);
    }
    if digits :| id == "cuda:" + digits && NamesCard(device, digits) {
      NamedIsCard(device, digits);
    }
  }

  // ----- The registry's lease ------------------------------------------------------------------

  /** What a registry session asks for is one of the plans that never deadlock with runs and probes. */
  lemma RegistryPlanCounts()
    ensures RunLeases.ExperimentPlan(RegistryProtocol.REGISTRY_PLAN)
  {
    assert RunLeases.IsRegistrySession(RegistryProtocol.REGISTRY_PLAN);
  }
}
