/** The string operations by what they promise: trimming, white space, numerals,
    lengths. */
module TextLaws {
  import opened Text

  predicate AllSpace(s: string) { forall i :: 0 <= i < |s| ==> IsSpace(s[i]) }

  /** White space is what ECMAScript calls white space or a line terminator. */
  lemma SpaceExactly(c: char)
    ensures var u := c as int;
      IsSpace(c) <==> 9 <= u <= 13 || u == 32 || u == 0xA0 || u == 0x1680 || 0x2000 <= u <= 0x200A || u == 0x2028
                      || u == 0x2029 || u == 0x202F || u == 0x205F || u == 0x3000 || u == 0xFEFF
  {
  }

  lemma {:induction false} StartTrimmed(s: string) returns (before: string)
    ensures AllSpace(before) && s == before + TrimStart(s)
    ensures TrimStart(s) == "" || !IsSpace(TrimStart(s)[0])
  {
    before := "";
    if s != "" && IsSpace(s[0]) {
      before := StartTrimmed(s[1..]);
      before := [s[0]] + before;
      assert s == [s[0]] + s[1..];
    }
  }

  lemma {:induction false} EndTrimmed(s: string) returns (after: string)
    ensures AllSpace(after) && s == TrimEnd(s) + after
    ensures TrimEnd(s) == "" || !IsSpace(TrimEnd(s)[|TrimEnd(s)| - 1])
  {
    after := "";
    if s != "" && IsSpace(s[|s| - 1]) {
      after := EndTrimmed(s[..|s| - 1]);
      after := after + [s[|s| - 1]];
      assert s == s[..|s| - 1] + [s[|s| - 1]];
    }
  }

  /** Trimming takes white space off both ends, all of it and nothing else. */
  lemma TrimExactly(s: string) returns (before: string, after: string)
    ensures AllSpace(before) && AllSpace(after) && s == before + Trim(s) + after
    ensures Trimmed(Trim(s))
  {
    before := StartTrimmed(s);
    after := EndTrimmed(TrimStart(s));
  }

  /** And that decides it. */
  lemma TrimmedOnce(before: string, t: string, after: string)
    requires AllSpace(before) && AllSpace(after) && Trimmed(t)
    ensures Trim(before + t + after) == t
  {
    SkipsBefore(before, t + after);
    assert before + t + after == before + (t + after);
    if t == "" {
      assert t + after == after;
      SkipsBefore(after, "");
      assert after + "" == after;
    } else {
      assert TrimStart(t + after) == t + after;
      SkipsAfter(t, after);
    }
  }

  lemma {:induction false} SkipsBefore(before: string, t: string)
    requires AllSpace(before)
    ensures TrimStart(before + t) == TrimStart(t)
  {
    if before == "" {
      assert before + t == t;
    } else {
      assert (before + t)[1..] == before[1..] + t;
      SkipsBefore(before[1..], t);
    }
  }

  lemma {:induction false} SkipsAfter(t: string, after: string)
    requires AllSpace(after)
    ensures TrimEnd(t + after) == TrimEnd(t)
    decreases |after|
  {
    if after == "" {
      assert t + after == t;
    } else {
      assert (t + after)[..|t + after| - 1] == t + after[..|after| - 1];
      SkipsAfter(t, after[..|after| - 1]);
    }
  }

  // ---- Numerals, joining, length ----

  /** Decimal digits, the highest first, and no zero in front. */
  lemma {:induction false} DecExactly(n: nat, d: nat)
    requires d < 10
    ensures |Dec(d)| == 1 && Dec(d)[0] == '0' + d as char
    ensures n > 0 ==> Dec(10 * n + d) == Dec(n) + Dec(d)
    ensures n > 0 ==> Dec(n)[0] != '0'
    decreases n
  {
    assert n > 0 ==> (10 * n + d) / 10 == n && (10 * n + d) % 10 == d;
    if n >= 10 {
      DecExactly(n / 10, n % 10);
    }
  }

  lemma JoinTwo(a: string, b: string, rest: seq<string>, sep: string)
    ensures Join([], sep) == "" && Join([a], sep) == a
    ensures Join([a, b] + rest, sep) == a + sep + Join([b] + rest, sep)
  {
    assert ([a, b] + rest)[1..] == [b] + rest;
  }

  /** A character beyond the basic plane takes two units, any other one. */
  lemma UnitsExactly(c: char, s: string)
    ensures Units("") == 0
    ensures Units([c] + s) == (if c as int >= 0x10000 then 2 else 1) + Units(s)
  {
    assert ([c] + s)[1..] == s;
  }
}
