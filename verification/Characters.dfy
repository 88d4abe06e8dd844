/** Letters, digits and blanks one by one, and the blanks around a text that trimming takes away. */
module Characters {
  import opened Leases
  import opened Devices

  // ----- The alphabets -------------------------------------------------------------------------

  const CAPITALS := "ABCDEFGHIJKLMNOPQRSTUVWXYZ"
  const SMALL := "abcdefghijklmnopqrstuvwxyz"
  const DIGITS := "0123456789"
  const BLANKS := [9 as char, 10 as char, 11 as char, 12 as char, 13 as char, 32 as char]

  lemma LetterAt(k: nat)
    requires k < 26
    ensures CAPITALS[k] as int == 'A' as int + k && SMALL[k] as int == 'a' as int + k
  {
  }

  lemma DigitAt(k: nat)
    requires k < 10
    ensures DIGITS[k] as int == '0' as int + k
  {
  }

  lemma CapitalsAre(c: char)
    ensures c in CAPITALS <==> 'A' <= c <= 'Z'
  {
    if 'A' <= c <= 'Z' {
      LetterAt(c as int - 'A' as int);
      assert CAPITALS[c as int - 'A' as int] == c;
    }
    if k :| 0 <= k < 26 && CAPITALS[k] == c {
      LetterAt(k);
    }
  }

  lemma SmallAre(c: char)
    ensures c in SMALL <==> 'a' <= c <= 'z'
  {
    if 'a' <= c <= 'z' {
      LetterAt(c as int - 'a' as int);
      assert SMALL[c as int - 'a' as int] == c;
    }
    if k :| 0 <= k < 26 && SMALL[k] == c {
      LetterAt(k);
    }
  }

  lemma DigitsAre(c: char)
    ensures c in DIGITS <==> IsDigit(c)
  {
    if IsDigit(c) {
      DigitAt(c as int - '0' as int);
      assert DIGITS[c as int - '0' as int] == c;
    }
    if k :| 0 <= k < 10 && DIGITS[k] == c {
      DigitAt(k);
    }
  }

  lemma BlanksAre(c: char)
    ensures c in BLANKS <==> IsSpace(c)
  {
    assert BLANKS[0] in BLANKS && BLANKS[1] in BLANKS && BLANKS[2] in BLANKS && BLANKS[3] in BLANKS && BLANKS[4] in BLANKS;
    assert BLANKS[5] in BLANKS;
  }

  // ----- Blanks around a text ------------------------------------------------------------------

  predicate Blank(s: string) { forall i :: 0 <= i < |s| ==> IsSpace(s[i]) }

  /** Between these places is all that is not blank at the ends. */
  predicate Core(s: string, from: nat, to: nat) {
    && from <= to <= |s| && Blank(s[..from]) && Blank(s[to..])
    && (from < to ==> !IsSpace(s[from]) && !IsSpace(s[to - 1]))
  }

  lemma {:induction false} TrimmedAt(s: string) returns (blanks: nat)
    ensures blanks <= |s| && TrimLeft(s) == s[blanks..] && Blank(s[..blanks])
  {
    if s != [] && IsSpace(s[0]) {
      var more := TrimmedAt(s[1..]);
      blanks := more + 1;
      assert s[1..][more..] == s[blanks..];
      assert s[..blanks] == [s[0]] + s[1..][..more];
    } else {
      blanks := 0;
    }
  }

  lemma {:induction false} TrimPast(s: string, blanks: nat)
    requires blanks < |s| && Blank(s[..blanks]) && !IsSpace(s[blanks])
    ensures TrimLeft(s) == s[blanks..]
  {
    if blanks > 0 {
      assert s[0] == s[..blanks][0];
      assert s[1..][..blanks - 1] == s[..blanks][1..];
      TrimPast(s[1..], blanks - 1);
      assert s[1..][blanks - 1..] == s[blanks..];
    }
  }

  lemma {:induction false} TrimBlank(s: string)
    requires Blank(s)
    ensures TrimLeft(s) == [] && TrimRight(s) == []
    decreases |s|
  {
    if s != [] {
      TrimBlank(s[1..]);
      TrimBlank(s[..|s| - 1]);
    }
  }

  lemma {:induction false} TrimRightPast(s: string, to: nat)
    requires to <= |s| && Blank(s[to..]) && (to > 0 ==> !IsSpace(s[to - 1]))
    ensures TrimRight(s) == s[..to]
    decreases |s|
  {
    if to < |s| {
      assert s[|s| - 1] == s[to..][|s| - 1 - to];
      assert s[..|s| - 1][to..] == s[to..][..|s| - 1 - to];
      TrimRightPast(s[..|s| - 1], to);
      assert s[..|s| - 1][..to] == s[..to];
    }
  }

  /** Stripping leaves the core. */
  lemma StripMeans(s: string, from: nat, to: nat)
    requires Core(s, from, to)
    ensures Strip(s) == s[from..to]
  {
    if from < to {
      TrimPast(s, from);
      assert s[from..][to - from..] == s[to..];
      TrimRightPast(s[from..], to - from);
      assert s[from..][..to - from] == s[from..to];
    } else {
      assert s == s[..from] + s[to..];
      TrimBlank(s);
    }
  }

  /** Every text has a core. */
  lemma CoreOf(s: string) returns (from: nat, to: nat)
    ensures Core(s, from, to)
  {
    from := TrimmedAt(s);
    to := |s|;
    while to > from && IsSpace(s[to - 1])
      invariant from <= to <= |s| && Blank(s[to..])
    {
      to := to - 1;
      assert s[to..] == [s[to]] + s[to + 1..];
    }
    if from < to {
      assert TrimLeft(s)[0] == s[from];
    }
  }
}
