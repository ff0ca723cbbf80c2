/**
 * Reading the agent-identifier list: every line of the file is stripped of
 * surrounding whitespace and the lines left empty are dropped
 * (`[line.strip() for line in file if line.strip()]`).
 */
module AgentIds {

  /**
   * Python's `str.isspace` for one character: the characters that
   * `str.strip()` with no argument removes.
   */
  predicate IsSpace(c: char)
  {
    || '\t' <= c <= '\r'
    || '\U{1C}' <= c <= ' '
    || c == '\U{85}' || c == '\U{A0}' || c == '\U{1680}'
    || '\U{2000}' <= c <= '\U{200A}'
    || c == '\U{2028}' || c == '\U{2029}' || c == '\U{202F}' || c == '\U{205F}' || c == '\U{3000}'
  }

  /** A line holding nothing but whitespace (the empty line included). */
  predicate IsBlank(s: string)
  {
    forall k :: 0 <= k < |s| ==> IsSpace(s[k])
  }

  /** `s.lstrip()`. */
  function TrimStart(s: string): (r: string)
    ensures |r| <= |s|
    ensures r != [] ==> !IsSpace(r[0])
  {
    if s != [] && IsSpace(s[0]) then TrimStart(s[1..]) else s
  }

  /** `s.rstrip()`. */
  function TrimEnd(s: string): (r: string)
    ensures |r| <= |s|
    ensures r != [] ==> r[0] == s[0] && !IsSpace(r[|r| - 1])
  {
    if s != [] && IsSpace(s[|s| - 1]) then TrimEnd(s[..|s| - 1]) else s
  }

  /** `s.strip()`. */
  function Strip(s: string): (r: string)
    ensures |r| <= |s|
    ensures r != [] ==> !IsSpace(r[0]) && !IsSpace(r[|r| - 1])
  {
    TrimEnd(TrimStart(s))
  }

  /** `lstrip` keeps a suffix, removes only whitespace, and leaves no whitespace in front. */
  lemma {:induction false} TrimStartRemovesLeadingSpace(s: string)
    ensures var r := TrimStart(s);
      && |r| <= |s| && r == s[|s| - |r|..]
      && IsBlank(s[..|s| - |r|])
      && (r != [] ==> !IsSpace(r[0]))
  {
    if s != [] && IsSpace(s[0]) {
      TrimStartRemovesLeadingSpace(s[1..]);
      var r := TrimStart(s[1..]);
      assert s[..|s| - |r|] == [s[0]] + s[1..][..|s| - 1 - |r|];
    }
  }

  /** `rstrip` keeps a prefix, removes only whitespace, and leaves no whitespace at the end. */
  lemma {:induction false} TrimEndRemovesTrailingSpace(s: string)
    ensures var r := TrimEnd(s);
      && |r| <= |s| && r == s[..|r|]
      && IsBlank(s[|r|..])
      && (r != [] ==> !IsSpace(r[|r| - 1]))
  {
    if s != [] && IsSpace(s[|s| - 1]) {
      TrimEndRemovesTrailingSpace(s[..|s| - 1]);
      var r := TrimEnd(s[..|s| - 1]);
      assert s[|r|..] == s[..|s| - 1][|r|..] + [s[|s| - 1]];
    }
  }

  /**
   * What `strip` removes is whitespace and what it keeps is the run of `s`
   * between the first and the last non-whitespace character.
   */
  lemma StripIsTrimmedInfix(s: string)
    ensures var i := |s| - |TrimStart(s)|;
      && i + |Strip(s)| <= |s|
      && Strip(s) == s[i..i + |Strip(s)|]
      && IsBlank(s[..i])
      && IsBlank(s[i + |Strip(s)|..])
    ensures Strip(s) != [] ==> !IsSpace(Strip(s)[0]) && !IsSpace(Strip(s)[|Strip(s)| - 1])
  {
    var t := TrimStart(s);
    var r := TrimEnd(t);
    var i := |s| - |t|;
    TrimStartRemovesLeadingSpace(s);
    TrimEndRemovesTrailingSpace(t);
    assert t[..|r|] == s[i..i + |r|];
    assert t[|r|..] == s[i + |r|..];
  }

  /** `line.strip()` is empty exactly when the line is blank. */
  lemma StripEmptyIffBlank(s: string)
    ensures Strip(s) == [] <==> IsBlank(s)
  {
    StripIsTrimmedInfix(s);
    var i := |s| - |TrimStart(s)|;
    if Strip(s) != [] {
      assert s[i] == Strip(s)[0];
    } else {
      forall k | 0 <= k < |s|
        ensures IsSpace(s[k])
      {
        if k < i {
          assert s[k] == s[..i][k];
        } else {
          assert s[k] == s[i..][k - i];
        }
      }
    }
  }

  /** Stripping an already stripped string changes nothing. */
  lemma StripIdempotent(s: string)
    ensures Strip(Strip(s)) == Strip(s)
  {
  }

  /** What one line contributes to the list: its strip, unless that is empty. */
  function LineId(line: string): (r: seq<string>)
    ensures |r| <= 1
    ensures forall k :: 0 <= k < |r| ==> r[k] == Strip(line) != []
  {
    if Strip(line) == [] then [] else [Strip(line)]
  }

  /** The agent identifiers read from `lines`, one per non-blank line. */
  function ParseAgentIds(lines: seq<string>): (ids: seq<string>)
    ensures |ids| <= |lines|
    ensures forall k :: 0 <= k < |ids| ==> ids[k] != [] && !IsSpace(ids[k][0]) && !IsSpace(ids[k][|ids[k]| - 1])
  {
    if lines == [] then []
    else LineId(lines[0]) + ParseAgentIds(lines[1..])
  }

  /** Every identifier is non-empty and is its own strip. */
  lemma AgentIdsAreStripped(lines: seq<string>)
    ensures forall id :: id in ParseAgentIds(lines) ==> id != [] && Strip(id) == id
  {
  }


  /** Parsing two runs of lines one after the other yields their identifiers in file order. */
  lemma {:induction false} ParseAgentIdsAppend(a: seq<string>, b: seq<string>)
    ensures ParseAgentIds(a + b) == ParseAgentIds(a) + ParseAgentIds(b)
  {
    if a == [] {
      assert a + b == b;
    } else {
      assert (a + b)[0] == a[0];
      assert (a + b)[1..] == a[1..] + b;
      ParseAgentIdsAppend(a[1..], b);
      calc {
        ParseAgentIds(a + b);
        LineId(a[0]) + ParseAgentIds(a[1..] + b);
        LineId(a[0]) + (ParseAgentIds(a[1..]) + ParseAgentIds(b));
        (LineId(a[0]) + ParseAgentIds(a[1..])) + ParseAgentIds(b);
        ParseAgentIds(a) + ParseAgentIds(b);
      }
    }
  }

  /** One line contributes its strip when it is not blank and nothing when it is. */
  lemma ParseOneLine(line: string)
    ensures IsBlank(line) ==> ParseAgentIds([line]) == []
    ensures !IsBlank(line) ==> ParseAgentIds([line]) == [Strip(line)]
  {
    StripEmptyIffBlank(line);
    assert [line][1..] == [];
  }

  /** The number of lines of `lines` that are not blank. */
  function NonBlankCount(lines: seq<string>): nat
  {
    if lines == [] then 0
    else (if IsBlank(lines[0]) then 0 else 1) + NonBlankCount(lines[1..])
  }

  /** One identifier per non-blank line: whitespace-only lines are dropped, no other line is. */
  lemma {:induction false} AgentIdPerNonBlankLine(lines: seq<string>)
    ensures |ParseAgentIds(lines)| == NonBlankCount(lines) <= |lines|
    ensures (forall k :: 0 <= k < |lines| ==> IsBlank(lines[k])) ==> ParseAgentIds(lines) == []
  {
    if lines != [] {
      StripEmptyIffBlank(lines[0]);
      AgentIdPerNonBlankLine(lines[1..]);
      if forall k :: 0 <= k < |lines| ==> IsBlank(lines[k]) {
        assert forall k :: 0 <= k < |lines[1..]| ==> IsBlank(lines[1..][k]) by {
          forall k | 0 <= k < |lines[1..]| ensures IsBlank(lines[1..][k]) {
            assert lines[1..][k] == lines[k + 1];
          }
        }
        assert IsBlank(lines[0]);
      }
    }
  }
}
