/** `sanitizeText`, the client's repair of text whose accented letters were
    decoded badly: each known mangled sequence of two replacement characters
    and a letter becomes the intended letters, any other pair of replacement
    characters becomes "n", and U+01F8 becomes "e". */
module Text {
  import opened Json

  /** U+FFFD, the replacement character. */
  const Bad: char := '\U{FFFD}'
  /** U+01F8, a capital N with grave that stands for a mangled "e". */
  const BadE: char := '\U{01F8}'

  /** `s.replace(/pat/g, rep)` for a literal pattern: scanned left to right,
      each match replaced and skipped, matches never overlapping. */
  function ReplaceAll(s: string, pat: string, rep: string): string
    requires |pat| > 0
    decreases |s|
  {
    if |s| == 0 then ""
    else if |pat| <= |s| && s[..|pat|] == pat then rep + ReplaceAll(s[|pat|..], pat, rep)
    else [s[0]] + ReplaceAll(s[1..], pat, rep)
  }

  /** `sanitizeText` on a string: the six replacements in order. */
  function Sanitize(s: string): string {
    var s1 := ReplaceAll(s, [Bad, Bad, 'n'], "on");
    var s2 := ReplaceAll(s1, [Bad, Bad, 'a'], "na");
    var s3 := ReplaceAll(s2, [Bad, Bad, 'm'], "um");
    var s4 := ReplaceAll(s3, [Bad, Bad, 'i'], "ni");
    var s5 := ReplaceAll(s4, [Bad, Bad], "n");
    ReplaceAll(s5, [BadE], "e")
  }

  /** `sanitizeText(value)`: anything but a string comes back unchanged. */
  function SanitizeValue(v: Value): (r: Value)
    ensures !v.JStr? ==> r == v
    ensures v.JStr? ==> r == JStr(Sanitize(v.s))
  {
    if v.JStr? then JStr(Sanitize(v.s)) else v
  }

  /** No two replacement characters side by side. */
  predicate NoPair(s: string) {
    forall i :: 0 <= i < |s| - 1 ==> !(s[i] == Bad && s[i + 1] == Bad)
  }

  /** A pattern whose first character does not occur leaves the text alone. */
  lemma {:induction false} ReplaceAbsent(s: string, pat: string, rep: string)
    requires |pat| > 0 && pat[0] !in s
    ensures ReplaceAll(s, pat, rep) == s
    decreases |s|
  {
    if |s| > 0 {
      assert s[0] != pat[0];
      ReplaceAbsent(s[1..], pat, rep);
      assert [s[0]] + s[1..] == s;
    }
  }

  /** A pattern starting with a pair of replacement characters does not occur
      in a text without such a pair. */
  lemma {:induction false} ReplacePairAbsent(s: string, pat: string, rep: string)
    requires |pat| >= 2 && pat[0] == Bad && pat[1] == Bad && NoPair(s)
    ensures ReplaceAll(s, pat, rep) == s
    decreases |s|
  {
    if |s| > 0 {
      if |pat| <= |s| && s[..|pat|] == pat {
        assert false;
      }
      ReplacePairAbsent(s[1..], pat, rep);
      assert [s[0]] + s[1..] == s;
    }
  }

  /** Replacing every pair by "n", left to right, leaves no pair behind: a
      run of replacement characters keeps at most its odd last one. */
  lemma {:induction false} PairsReplaced(s: string)
    ensures NoPair(ReplaceAll(s, [Bad, Bad], "n"))
    decreases |s|
  {
    var r := ReplaceAll(s, [Bad, Bad], "n");
    if |s| > 0 {
      if 2 <= |s| && s[..2] == [Bad, Bad] {
        PairsReplaced(s[2..]);
        var rest := ReplaceAll(s[2..], [Bad, Bad], "n");
        assert r == "n" + rest;
        forall i | 0 <= i < |r| - 1 ensures !(r[i] == Bad && r[i + 1] == Bad) {
          if i > 0 {
            assert r[i] == rest[i - 1] && r[i + 1] == rest[i];
          }
        }
      } else {
        PairsReplaced(s[1..]);
        var rest := ReplaceAll(s[1..], [Bad, Bad], "n");
        assert r == [s[0]] + rest;
        if s[0] == Bad && |rest| > 0 {
          var t := s[1..];
          assert |t| > 0;
          assert t[0] != Bad by {
            assert s[..2] == [s[0], s[1]];
          }
          assert !(2 <= |t| && t[..2] == [Bad, Bad]);
          assert rest[0] == t[0];
        }
        forall i | 0 <= i < |r| - 1 ensures !(r[i] == Bad && r[i + 1] == Bad) {
          if i > 0 {
            assert r[i] == rest[i - 1] && r[i + 1] == rest[i];
          }
        }
      }
    }
  }

  /** Replacing a character other than U+FFFD by another keeps the text free
      of pairs, and removes that character. */
  lemma {:induction false} CharReplaced(s: string, c: char, d: char)
    requires c != Bad && d != Bad && c != d && NoPair(s)
    ensures NoPair(ReplaceAll(s, [c], [d])) && c !in ReplaceAll(s, [c], [d])
    ensures |s| > 0 ==> ReplaceAll(s, [c], [d])[0] == if s[0] == c then d else s[0]
    decreases |s|
  {
    var r := ReplaceAll(s, [c], [d]);
    if |s| > 0 {
      var t := s[1..];
      assert NoPair(t) by {
        forall i | 0 <= i < |t| - 1 ensures !(t[i] == Bad && t[i + 1] == Bad) {
          assert t[i] == s[i + 1] && t[i + 1] == s[i + 2];
        }
      }
      CharReplaced(t, c, d);
      var rest := ReplaceAll(t, [c], [d]);
      var head := if s[0] == c then d else s[0];
      assert r == [head] + rest by {
        if s[0] == c {
          assert s[..1] == [c];
        } else {
          assert s[..1] != [c];
        }
      }
      forall i | 0 <= i < |r| - 1 ensures !(r[i] == Bad && r[i + 1] == Bad) {
        if i > 0 {
          assert r[i] == rest[i - 1] && r[i + 1] == rest[i];
        } else if head == Bad {
          assert s[0] == Bad && s[1] == t[0];
        }
      }
    }
  }

  /** A replacement no longer than its pattern never lengthens the text. */
  lemma {:induction false} ReplaceShortens(s: string, pat: string, rep: string)
    requires 0 < |pat| && |rep| <= |pat|
    ensures |ReplaceAll(s, pat, rep)| <= |s|
    decreases |s|
  {
    if |s| > 0 {
      if |pat| <= |s| && s[..|pat|] == pat {
        ReplaceShortens(s[|pat|..], pat, rep);
      } else {
        ReplaceShortens(s[1..], pat, rep);
      }
    }
  }

  /** After sanitising, no pair of replacement characters and no U+01F8
      remains. */
  lemma SanitizeCleans(s: string)
    ensures NoPair(Sanitize(s)) && BadE !in Sanitize(s)
  {
    var s1 := ReplaceAll(s, [Bad, Bad, 'n'], "on");
    var s2 := ReplaceAll(s1, [Bad, Bad, 'a'], "na");
    var s3 := ReplaceAll(s2, [Bad, Bad, 'm'], "um");
    var s4 := ReplaceAll(s3, [Bad, Bad, 'i'], "ni");
    PairsReplaced(s4);
    CharReplaced(ReplaceAll(s4, [Bad, Bad], "n"), BadE, 'e');
  }

  /** Text holding neither U+FFFD nor U+01F8 is returned as it is. */
  lemma SanitizeKeepsCleanText(s: string)
    requires Bad !in s && BadE !in s
    ensures Sanitize(s) == s
  {
    ReplaceAbsent(s, [Bad, Bad, 'n'], "on");
    ReplaceAbsent(s, [Bad, Bad, 'a'], "na");
    ReplaceAbsent(s, [Bad, Bad, 'm'], "um");
    ReplaceAbsent(s, [Bad, Bad, 'i'], "ni");
    ReplaceAbsent(s, [Bad, Bad], "n");
    ReplaceAbsent(s, [BadE], "e");
  }

  /** Sanitising twice is sanitising once. */
  lemma SanitizeIdempotent(s: string)
    ensures Sanitize(Sanitize(s)) == Sanitize(s)
  {
    var t := Sanitize(s);
    SanitizeCleans(s);
    ReplacePairAbsent(t, [Bad, Bad, 'n'], "on");
    ReplacePairAbsent(t, [Bad, Bad, 'a'], "na");
    ReplacePairAbsent(t, [Bad, Bad, 'm'], "um");
    ReplacePairAbsent(t, [Bad, Bad, 'i'], "ni");
    ReplacePairAbsent(t, [Bad, Bad], "n");
    ReplaceAbsent(t, [BadE], "e");
  }

  /** Sanitising never lengthens the text. */
  lemma SanitizeShortens(s: string)
    ensures |Sanitize(s)| <= |s|
  {
    var s1 := ReplaceAll(s, [Bad, Bad, 'n'], "on");
    var s2 := ReplaceAll(s1, [Bad, Bad, 'a'], "na");
    var s3 := ReplaceAll(s2, [Bad, Bad, 'm'], "um");
    var s4 := ReplaceAll(s3, [Bad, Bad, 'i'], "ni");
    var s5 := ReplaceAll(s4, [Bad, Bad], "n");
    ReplaceShortens(s, [Bad, Bad, 'n'], "on");
    ReplaceShortens(s1, [Bad, Bad, 'a'], "na");
    ReplaceShortens(s2, [Bad, Bad, 'm'], "um");
    ReplaceShortens(s3, [Bad, Bad, 'i'], "ni");
    ReplaceShortens(s4, [Bad, Bad], "n");
    ReplaceShortens(s5, [BadE], "e");
  }

  /** The known mangled spellings are repaired. */
  lemma SanitizeExamples()
    ensures Sanitize([Bad, Bad, 'n']) == "on"
    ensures Sanitize(['a', BadE]) == "ae"
  {
    assert ReplaceAll([Bad, Bad, 'n'], [Bad, Bad, 'n'], "on") == "on";
    ReplaceAbsent("on", [Bad, Bad, 'a'], "na");
    ReplaceAbsent("on", [Bad, Bad, 'm'], "um");
    ReplaceAbsent("on", [Bad, Bad, 'i'], "ni");
    ReplaceAbsent("on", [Bad, Bad], "n");
    ReplaceAbsent("on", [BadE], "e");
    var s := ['a', BadE];
    ReplaceAbsent(s, [Bad, Bad, 'n'], "on");
    ReplaceAbsent(s, [Bad, Bad, 'a'], "na");
    ReplaceAbsent(s, [Bad, Bad, 'm'], "um");
    ReplaceAbsent(s, [Bad, Bad, 'i'], "ni");
    ReplaceAbsent(s, [Bad, Bad], "n");
    assert ReplaceAll(s, [BadE], "e") == "a" + ReplaceAll([BadE], [BadE], "e");
  }
}
