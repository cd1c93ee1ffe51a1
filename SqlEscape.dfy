/**
 * escapeSQL of 493779/ideal1.go: every single quote is doubled, then every
 * backslash is doubled, by two whole-string replacements.
 */
module SqlEscape {
  import opened GoStrings

  const Quote: char := '\''
  const Backslash: char := '\\'

  /**
   * escapeSQL: the two strings.Replace passes, quotes first; together they
   * escape every rune on its own.
   */
  function EscapeSQL(input: string): (r: string)
    ensures r == Escaped(input)
  {
    TwoPassesAreOnePass(input);
    ReplaceAll(ReplaceAll(input, Quote, "''"), Backslash, "\\\\")
  }

  /** What one rune becomes in the escaped text. */
  function EscapeRune(c: char): string {
    if c == Quote then "''" else if c == Backslash then "\\\\" else [c]
  }

  /** The reference definition: one left-to-right pass, rune by rune. */
  function Escaped(s: string): string
    decreases |s|
  {
    if s == [] then "" else EscapeRune(s[0]) + Escaped(s[1..])
  }

  /** Replacement distributes over concatenation. */
  lemma {:induction false} ReplaceAllAppend(a: string, b: string, c: char, rep: string)
    ensures ReplaceAll(a + b, c, rep) == ReplaceAll(a, c, rep) + ReplaceAll(b, c, rep)
    decreases |a|
  {
    if a != [] {
      assert (a + b)[0] == a[0];
      assert (a + b)[1..] == a[1..] + b;
      ReplaceAllAppend(a[1..], b, c, rep);
      var h := if a[0] == c then rep else [a[0]];
      assert ReplaceAll(a + b, c, rep) == h + ReplaceAll(a[1..] + b, c, rep);
      assert ReplaceAll(a, c, rep) == h + ReplaceAll(a[1..], c, rep);
    } else {
      assert a + b == b;
    }
  }

  /**
   * The two passes equal the single pass: the quote pass adds no
   * backslash, so the second pass sees exactly the original backslashes.
   */
  lemma {:induction false} TwoPassesAreOnePass(s: string)
    ensures ReplaceAll(ReplaceAll(s, Quote, "''"), Backslash, "\\\\") == Escaped(s)
    decreases |s|
  {
    if s != [] {
      var head := if s[0] == Quote then "''" else [s[0]];
      var firstPass := ReplaceAll(s, Quote, "''");
      assert firstPass == head + ReplaceAll(s[1..], Quote, "''");
      ReplaceAllAppend(head, ReplaceAll(s[1..], Quote, "''"), Backslash, "\\\\");
      TwoPassesAreOnePass(s[1..]);
      if s[0] == Quote {
        assert ReplaceAll("''", Backslash, "\\\\") == "''" by {
          assert "''"[1..] == "'";
          assert "'"[1..] == "";
        }
      } else {
        assert ReplaceAll([s[0]], Backslash, "\\\\") == EscapeRune(s[0]) by {
          assert [s[0]][1..] == "";
        }
      }
    }
  }

  /** Each quote and each backslash adds exactly one rune. */
  lemma {:induction false} EscapedLength(s: string)
    ensures |Escaped(s)| == |s| + Count(s, Quote) + Count(s, Backslash)
    decreases |s|
  {
    if s != [] {
      EscapedLength(s[1..]);
    }
  }

  /** escapeSQL lengthens its input by one rune per quote and per backslash. */
  lemma EscapeSQLLength(s: string)
    ensures |EscapeSQL(s)| == |s| + Count(s, Quote) + Count(s, Backslash)
  {
    EscapedLength(s);
  }

  lemma {:induction false} CountPositive(s: string, c: char)
    ensures Count(s, c) > 0 <==> c in s
    decreases |s|
  {
    if s != [] {
      CountPositive(s[1..], c);
      assert c in s <==> s[0] == c || c in s[1..];
    }
  }

  /** The input comes back unchanged exactly when it holds no quote and no backslash. */
  lemma EscapeSQLUnchangedIff(s: string)
    ensures EscapeSQL(s) == s <==> Quote !in s && Backslash !in s
  {
    EscapedLength(s);
    CountPositive(s, Quote);
    CountPositive(s, Backslash);
    if Quote !in s && Backslash !in s {
      PlainUnchanged(s);
    }
  }

  lemma {:induction false} PlainUnchanged(s: string)
    requires Quote !in s && Backslash !in s
    ensures Escaped(s) == s
    decreases |s|
  {
    if s != [] {
      assert s == [s[0]] + s[1..];
      PlainUnchanged(s[1..]);
    }
  }

  /** Reads escaped text back: a doubled quote or backslash is one rune. */
  function Unescape(t: string): string
    decreases |t|
  {
    if t == [] then ""
    else if |t| >= 2 && t[0] == Quote && t[1] == Quote then [Quote] + Unescape(t[2..])
    else if |t| >= 2 && t[0] == Backslash && t[1] == Backslash then [Backslash] + Unescape(t[2..])
    else [t[0]] + Unescape(t[1..])
  }

  /** Escaping loses nothing: the original text is read back from the escaped one. */
  lemma {:induction false} UnescapeEscapeSQL(s: string)
    ensures Unescape(EscapeSQL(s)) == s
  {
    UnescapeEscaped(s);
  }

  lemma {:induction false} UnescapeEscaped(s: string)
    ensures Unescape(Escaped(s)) == s
    decreases |s|
  {
    if s != [] {
      var t := Escaped(s);
      var rest := Escaped(s[1..]);
      assert t == EscapeRune(s[0]) + rest;
      UnescapeEscaped(s[1..]);
      if s[0] == Quote || s[0] == Backslash {
        assert t[2..] == rest;
      } else {
        assert t[1..] == rest;
      }
      assert s == [s[0]] + s[1..];
    }
  }

  /** A quoted name with a trailing backslash. */
  lemma EscapeSQLExample()
    ensures EscapeSQL("O'Brien\\") == "O''Brien\\\\"
  {
    assert Escaped("\\") == "\\\\" by { assert "\\"[1..] == ""; }
    assert Escaped("n\\") == "n\\\\" by { assert "n\\"[1..] == "\\"; }
    assert Escaped("en\\") == "en\\\\" by { assert "en\\"[1..] == "n\\"; }
    assert Escaped("ien\\") == "ien\\\\" by { assert "ien\\"[1..] == "en\\"; }
    assert Escaped("rien\\") == "rien\\\\" by { assert "rien\\"[1..] == "ien\\"; }
    assert Escaped("Brien\\") == "Brien\\\\" by { assert "Brien\\"[1..] == "rien\\"; }
    assert Escaped("'Brien\\") == "''Brien\\\\" by { assert "'Brien\\"[1..] == "Brien\\"; }
    assert Escaped("O'Brien\\") == "O''Brien\\\\" by { assert "O'Brien\\"[1..] == "'Brien\\"; }
  }
}
