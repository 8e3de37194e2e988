/** `clean_it`: normalising the stored instruction text for display.
    The text is first rid of every `c(`, `)` and `"` in one left-to-right
    regular-expression pass, then split on ", " and joined with " ". */
module Cleaning {

  /** `re.sub(r'c\(|\)|\"', '', s)`: one scan from the left; at each
      position the alternatives are tried in order, a match is dropped and
      the scan resumes after it, otherwise one character is kept. */
  function RemoveWrappers(s: string): (r: string)
    ensures |r| <= |s|
    ensures '"' !in r && ')' !in r
  {
    if |s| >= 2 && s[0] == 'c' && s[1] == '(' then RemoveWrappers(s[2..])
    else if |s| >= 1 && (s[0] == ')' || s[0] == '"') then RemoveWrappers(s[1..])
    else if s == [] then []
    else [s[0]] + RemoveWrappers(s[1..])
  }

  predicate StartsWithSeparator(s: string)
  {
    |s| >= 2 && s[0] == ',' && s[1] == ' '
  }

  /** `s.split(', ')`: the pieces between non-overlapping separators found
      from the left; never empty. */
  function SplitOnSeparator(s: string): (parts: seq<string>)
    ensures |parts| >= 1
  {
    if StartsWithSeparator(s) then [""] + SplitOnSeparator(s[2..])
    else if s == [] then [""]
    else
      var rest := SplitOnSeparator(s[1..]);
      [[s[0]] + rest[0]] + rest[1..]
  }

  /** `sep.join(parts)`: the first part, then `sep` before each other part.
      A lone part is returned as it is. */
  function Join(sep: string, parts: seq<string>): (r: string)
    requires |parts| >= 1
    ensures |parts[0]| <= |r| && r[..|parts[0]|] == parts[0]
    ensures |parts| == 1 ==> r == parts[0]
  {
    parts[0] + PrefixEach(sep, parts[1..])
  }

  function PrefixEach(sep: string, parts: seq<string>): string
  {
    if parts == [] then "" else sep + parts[0] + PrefixEach(sep, parts[1..])
  }

  predicate NoSeparator(s: string)
  {
    forall k :: 0 <= k < |s| - 1 ==> !(s[k] == ',' && s[k + 1] == ' ')
  }

  /** An empty first part contributes only the separator after it. */
  lemma JoinEmptyFirst(sep: string, parts: seq<string>)
    requires |parts| >= 1
    ensures Join(sep, [""] + parts) == sep + Join(sep, parts)
  {
    var q := [""] + parts;
    assert q[0] == "" && q[1..] == parts;
    assert PrefixEach(sep, parts) == sep + parts[0] + PrefixEach(sep, parts[1..]);
  }

  /** Joining the pieces with ", " gives the text back. */
  lemma {:induction false} SplitJoinRoundTrip(s: string)
    ensures Join(", ", SplitOnSeparator(s)) == s
  {
    if StartsWithSeparator(s) {
      var parts := SplitOnSeparator(s[2..]);
      calc {
        Join(", ", SplitOnSeparator(s));
        Join(", ", [""] + parts);
        { JoinEmptyFirst(", ", parts); }
        ", " + Join(", ", parts);
        { SplitJoinRoundTrip(s[2..]); }
        ", " + s[2..];
        { assert s == s[..2] + s[2..]; }
        s;
      }
    } else if s != [] {
      var rest := SplitOnSeparator(s[1..]);
      calc {
        Join(", ", SplitOnSeparator(s));
        Join(", ", [[s[0]] + rest[0]] + rest[1..]);
        { JoinPrepend(", ", s[0], rest); }
        [s[0]] + Join(", ", rest);
        { SplitJoinRoundTrip(s[1..]); }
        [s[0]] + s[1..];
        s;
      }
    }
  }

  /** No piece holds a separator. */
  lemma {:induction false} SplitPiecesHaveNoSeparator(s: string)
    ensures forall k :: 0 <= k < |SplitOnSeparator(s)| ==> NoSeparator(SplitOnSeparator(s)[k])
  {
    if StartsWithSeparator(s) {
      SplitPiecesHaveNoSeparator(s[2..]);
      var rest := SplitOnSeparator(s[2..]);
      assert forall k :: 1 <= k < |[""] + rest| ==> ([""] + rest)[k] == rest[k - 1];
    } else if s != [] {
      SplitPiecesHaveNoSeparator(s[1..]);
      var rest := SplitOnSeparator(s[1..]);
      var first := [s[0]] + rest[0];
      assert NoSeparator(first) by {
        if |rest[0]| > 0 {
          FirstPieceStarts(s[1..]);
          assert rest[0][0] == s[1];
        }
        assert forall k :: 1 <= k < |first| ==> first[k] == rest[0][k - 1];
      }
      var parts := [first] + rest[1..];
      assert forall k :: 1 <= k < |parts| ==> parts[k] == rest[k];
    }
  }

  /** A non-empty first piece starts where the text does. */
  lemma FirstPieceStarts(s: string)
    requires |SplitOnSeparator(s)[0]| > 0
    ensures |s| > 0 && SplitOnSeparator(s)[0][0] == s[0]
  {
    SplitJoinRoundTrip(s);
    var parts := SplitOnSeparator(s);
    assert s == parts[0] + PrefixEach(", ", parts[1..]);
  }

  /** Reference definition: every separator found from the left becomes one space. */
  function ReplaceSeparators(s: string): (r: string)
    ensures |r| <= |s|
  {
    if StartsWithSeparator(s) then " " + ReplaceSeparators(s[2..])
    else if s == [] then []
    else [s[0]] + ReplaceSeparators(s[1..])
  }

  lemma JoinPrepend(sep: string, c: char, parts: seq<string>)
    requires |parts| >= 1
    ensures Join(sep, [[c] + parts[0]] + parts[1..]) == [c] + Join(sep, parts)
  {
    var q := [[c] + parts[0]] + parts[1..];
    assert q[0] == [c] + parts[0];
    assert q[1..] == parts[1..];
    var tail := PrefixEach(sep, parts[1..]);
    assert [c] + parts[0] + tail == [c] + (parts[0] + tail);
  }

  /** Splitting on ", " and joining with " " replaces each separator by a space. */
  lemma {:induction false} SplitJoinReplaces(s: string)
    ensures Join(" ", SplitOnSeparator(s)) == ReplaceSeparators(s)
  {
    if StartsWithSeparator(s) {
      var parts := SplitOnSeparator(s[2..]);
      calc {
        Join(" ", SplitOnSeparator(s));
        Join(" ", [""] + parts);
        { JoinEmptyFirst(" ", parts); }
        " " + Join(" ", parts);
        { SplitJoinReplaces(s[2..]); }
        " " + ReplaceSeparators(s[2..]);
      }
    } else if s != [] {
      var rest := SplitOnSeparator(s[1..]);
      calc {
        Join(" ", SplitOnSeparator(s));
        Join(" ", [[s[0]] + rest[0]] + rest[1..]);
        { JoinPrepend(" ", s[0], rest); }
        [s[0]] + Join(" ", rest);
        { SplitJoinReplaces(s[1..]); }
        [s[0]] + ReplaceSeparators(s[1..]);
      }
    }
  }

  /** Replacing separators adds neither a quote nor a closing parenthesis. */
  lemma {:induction false} ReplaceSeparatorsKeepsAbsent(s: string, c: char)
    requires c != ' ' && c !in s
    ensures c !in ReplaceSeparators(s)
  {
    if StartsWithSeparator(s) {
      ReplaceSeparatorsKeepsAbsent(s[2..], c);
    } else if s != [] {
      assert c !in s[1..] by { assert forall k :: 0 <= k < |s[1..]| ==> s[1..][k] == s[k + 1]; }
      ReplaceSeparatorsKeepsAbsent(s[1..], c);
    }
  }

  /** Text with none of the separators is left as it is. */
  lemma {:induction false} ReplaceSeparatorsIdentity(s: string)
    requires NoSeparator(s)
    ensures ReplaceSeparators(s) == s
  {
    if s != [] {
      assert !StartsWithSeparator(s);
      ReplaceSeparatorsIdentity(s[1..]);
    }
  }

  /** Text with none of `c(`, `)` and `"` passes the first pass unchanged. */
  lemma {:induction false} RemoveWrappersIdentity(s: string)
    requires forall k :: 0 <= k < |s| ==> s[k] != ')' && s[k] != '"'
    requires forall k :: 0 <= k < |s| - 1 ==> !(s[k] == 'c' && s[k + 1] == '(')
    ensures RemoveWrappers(s) == s
  {
    if s != [] {
      RemoveWrappersIdentity(s[1..]);
    }
  }

  /** `clean_it(data)`: the wrapper pass, then the pieces of the split
      joined with " ".  The result holds no `"` and no `)`, and is never
      longer than the stored text. */
  function CleanIt(s: string): (r: string)
    ensures '"' !in r && ')' !in r
    ensures |r| <= |s|
  {
    var t := RemoveWrappers(s);
    SplitJoinReplaces(t);
    ReplaceSeparatorsKeepsAbsent(t, '"');
    ReplaceSeparatorsKeepsAbsent(t, ')');
    Join(" ", SplitOnSeparator(t))
  }

  /** Text with none of `c(`, `)`, `"` and ", " is returned unchanged. */
  lemma CleanItIdentity(s: string)
    requires forall k :: 0 <= k < |s| ==> s[k] != ')' && s[k] != '"'
    requires forall k :: 0 <= k < |s| - 1 ==> !(s[k] == 'c' && s[k + 1] == '(')
    requires NoSeparator(s)
    ensures CleanIt(s) == s
  {
    RemoveWrappersIdentity(s);
    SplitJoinReplaces(s);
    ReplaceSeparatorsIdentity(s);
  }

  /** Cleaning is not idempotent: a comma just before a separator survives
      as a new ", " ... */
  lemma CleanItCommaExample()
    ensures CleanIt("a,, b") == "a, b"
  {
    RemoveWrappersCommaText();
    ReplaceSeparatorsCommaText();
    SplitJoinReplaces("a,, b");
  }

  lemma RemoveWrappersCommaText()
    ensures RemoveWrappers("a,, b") == "a,, b"
  {
    assert "b"[1..] == "";
    assert RemoveWrappers("b") == "b";
    assert " b"[1..] == "b";
    assert RemoveWrappers(" b") == " b";
    assert ", b"[1..] == " b";
    assert RemoveWrappers(", b") == ", b";
    assert ",, b"[1..] == ", b";
    assert RemoveWrappers(",, b") == ",, b";
    assert "a,, b"[1..] == ",, b";
  }

  lemma ReplaceSeparatorsCommaText()
    ensures ReplaceSeparators("a,, b") == "a, b"
  {
    assert "a,, b"[1..] == ",, b";
    assert ",, b"[1..] == ", b";
    assert ", b"[2..] == "b";
    assert "b"[1..] == "";
  }

  /** ... which a second cleaning turns into a space. */
  lemma CleanItCommaSecondPass()
    ensures CleanIt("a, b") == "a b"
  {
    assert RemoveWrappers("a, b") == "a, b" by {
      assert "a, b"[1..] == ", b";
      assert ", b"[1..] == " b";
      assert " b"[1..] == "b";
      assert "b"[1..] == "";
    }
    assert ReplaceSeparators("a, b") == "a b" by {
      assert "a, b"[1..] == ", b";
      assert ", b"[2..] == "b";
      assert "b"[1..] == "";
    }
    SplitJoinReplaces("a, b");
  }

  /** Cleaning is not idempotent: removing a `c(` can expose a new one. */
  lemma CleanItWrapperExample()
    ensures CleanIt("cc((") == "c("
    ensures CleanIt("c(") == ""
  {
    assert RemoveWrappers("cc((") == "c(" by {
      assert "cc(("[1..] == "c((";
      assert "c(("[2..] == "(";
      assert "("[1..] == "";
    }
    assert ReplaceSeparators("c(") == "c(" by {
      assert "c("[1..] == "(";
      assert "("[1..] == "";
    }
    SplitJoinReplaces("c(");
    assert RemoveWrappers("c(") == "" by {
      assert "c("[2..] == "";
    }
    SplitJoinReplaces("");
  }
}
