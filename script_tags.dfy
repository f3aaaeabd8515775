/** The script-tag stripper applied to message bodies: the global,
    case-insensitive replacement of
    `<script\b[^<]*(?:(?!<\/script>)<[^<]*)*<\/script>` by the empty string.

    Scanning left to right, a match starts at `<script` (any letter case)
    followed by a non-word character, and ends with the first `</script>`
    (any letter case) after it: the body of the pattern may cross every `<`
    except one that starts `</script>`, so it can neither stop earlier nor go
    past that closing tag. After a match the scan resumes behind it; where no
    match starts, the character is kept. */
module ScriptTags {
  import opened JsText

  const OpenTag: string := "<script"
  const CloseTag: string := "</script>"

  /** The characters `\w` matches (and `\b` separates from the others). */
  predicate IsWordChar(c: char)
  {
    ('a' <= c <= 'z') || ('A' <= c <= 'Z') || ('0' <= c <= '9') || c == '_'
  }

  /** Case folding of the `i` flag, on ASCII letters. */
  function LowerChar(c: char): char
  {
    if 'A' <= c <= 'Z' then (c as int + 32) as char else c
  }

  /** `pat` (written in lower case) occurs at index `i` of `s`, ignoring case. */
  predicate MatchesAt(s: string, i: nat, pat: string)
  {
    i + |pat| <= |s| && forall k :: 0 <= k < |pat| ==> LowerChar(s[i + k]) == pat[k]
  }

  /** `<script\b` matches at index `i`. */
  predicate OpensAt(s: string, i: nat)
  {
    MatchesAt(s, i, OpenTag) && (i + |OpenTag| == |s| || !IsWordChar(s[i + |OpenTag|]))
  }

  /** The first index at or after `from` where `</script>` occurs. */
  function FindClose(s: string, from: nat): (r: Option<nat>)
    ensures r.Some? ==> from <= r.value && r.value + |CloseTag| <= |s|
    decreases |s| - from
  {
    if from + |CloseTag| > |s| then None
    else if MatchesAt(s, from, CloseTag) then Some(from)
    else FindClose(s, from + 1)
  }

  /** `FindClose` finds the first `</script>` at or after `from`, and
      reports none only when none occurs there. */
  lemma {:induction false} FindCloseFirst(s: string, from: nat)
    ensures var r := FindClose(s, from);
            r.Some? ==> MatchesAt(s, r.value, CloseTag)
    ensures var r := FindClose(s, from);
            r.Some? ==> forall p :: from <= p < r.value ==> !MatchesAt(s, p, CloseTag)
    ensures FindClose(s, from).None? ==> forall p :: from <= p ==> !MatchesAt(s, p, CloseTag)
    decreases |s| - from
  {
    if from + |CloseTag| <= |s| && !MatchesAt(s, from, CloseTag) {
      FindCloseFirst(s, from + 1);
    }
  }

  /** The end of the match starting at index 0, if one does. */
  function MatchAtStart(s: string): (r: Option<nat>)
    ensures r.Some? ==> |OpenTag| + |CloseTag| <= r.value <= |s|
  {
    if OpensAt(s, 0) then
      match FindClose(s, |OpenTag|)
      case Some(q) => Some(q + |CloseTag|)
      case None => None
    else None
  }

  /** `body.replace(/<script\b...<\/script>/gi, '')`. The result is never
      longer than the input. */
  function Strip(s: string): (r: string)
    ensures |r| <= |s|
    decreases |s|
  {
    if s == [] then []
    else
      match MatchAtStart(s)
      case Some(end) => Strip(s[end..])
      case None => [s[0]] + Strip(s[1..])
  }

  /** A suffix of `s` holds no `</script>` when `s` holds none. */
  lemma NoCloseInSuffix(s: string, k: nat)
    requires k <= |s|
    requires FindClose(s, 0).None?
    ensures FindClose(s[k..], 0).None?
  {
    forall p: nat
      ensures MatchesAt(s[k..], p, CloseTag) ==> MatchesAt(s, k + p, CloseTag)
    {
      if MatchesAt(s[k..], p, CloseTag) {
        forall j | 0 <= j < |CloseTag|
          ensures LowerChar(s[k + p + j]) == CloseTag[j]
        {
          assert s[k..][p + j] == s[k + p + j];
        }
      }
    }
    FindCloseFirst(s, 0);
    FindCloseFirst(s[k..], 0);
  }

  /** Without any `</script>` in the text nothing is removed: an opening tag
      alone never matches, at any position. */
  lemma {:induction false} StripWithoutCloseTag(s: string)
    requires FindClose(s, 0).None?
    ensures Strip(s) == s
    decreases |s|
  {
    if s != [] {
      FindCloseFirst(s, 0);
      FindCloseFirst(s, |OpenTag|);
      assert MatchAtStart(s).None?;
      NoCloseInSuffix(s, 1);
      StripWithoutCloseTag(s[1..]);
    }
  }

  /** Without any `<script` opening nothing is removed. */
  lemma {:induction false} StripWithoutOpenTag(s: string)
    requires forall i :: 0 <= i < |s| ==> !OpensAt(s, i)
    ensures Strip(s) == s
    decreases |s|
  {
    if s != [] {
      assert !OpensAt(s, 0);
      forall i | 0 <= i < |s| - 1
        ensures !OpensAt(s[1..], i)
      {
        assert !OpensAt(s, i + 1);
        if MatchesAt(s[1..], i, OpenTag) {
          assert MatchesAt(s, i + 1, OpenTag);
        }
      }
      StripWithoutOpenTag(s[1..]);
    }
  }

  /** Where a match starts, the scan resumes behind it. */
  lemma StripSkipsMatch(s: string, end: nat)
    requires MatchAtStart(s) == Some(end)
    ensures Strip(s) == Strip(s[end..])
  {
  }

  /** A character that differs from `<script` at offset `k` rules out a
      match at the start. */
  lemma NoMatchAtStart(s: string, k: nat)
    requires k < |OpenTag| && k < |s| && LowerChar(s[k]) != OpenTag[k]
    ensures MatchAtStart(s).None?
  {
    assert !MatchesAt(s, 0, OpenTag);
  }

  /** `<script></script>` followed by `rest` is one match of 17 characters. */
  lemma EmptyElementMatches(rest: string)
    ensures MatchAtStart("<script></script>" + rest) == Some(17)
  {
    var s := "<script></script>" + rest;
    assert MatchesAt(s, 0, OpenTag);
    assert !IsWordChar(s[7]);
    assert !MatchesAt(s, 7, CloseTag) by {
      assert LowerChar(s[7]) != CloseTag[0];
    }
    assert MatchesAt(s, 8, CloseTag);
    assert FindClose(s, 8) == Some(8);
  }

  /** `ipt></script>` holds no opening tag. */
  lemma TailHasNoOpening()
    ensures forall i :: 0 <= i < |"ipt></script>"| ==> !OpensAt("ipt></script>", i)
  {
    var tail := "ipt></script>";
    forall i | 0 <= i < |tail|
      ensures !OpensAt(tail, i)
    {
      if i + |OpenTag| <= |tail| {
        if i == 4 {
          assert LowerChar(tail[i + 1]) != OpenTag[1];
        } else {
          assert LowerChar(tail[i]) != OpenTag[0];
        }
      }
    }
  }

  /** An empty script element in front of text without openings is removed
      and the text is kept as it is. */
  lemma StripInner(rest: string)
    requires forall i :: 0 <= i < |rest| ==> !OpensAt(rest, i)
    ensures Strip("<script></script>" + rest) == rest
  {
    var u := "<script></script>" + rest;
    EmptyElementMatches(rest);
    StripSkipsMatch(u, 17);
    assert u[17..] == rest;
    StripWithoutOpenTag(rest);
  }

  /** A first character where no match starts is kept in front of the rest. */
  lemma StripKeepsFirst(s: string)
    requires s != [] && MatchAtStart(s).None?
    ensures Strip(s) == [s[0]] + Strip(s[1..])
  {
  }

  /** The first `n` characters, at none of which a match starts, are kept
      in front of the stripped rest. */
  lemma {:induction false} StripKeepsPrefix(s: string, n: nat)
    requires n <= |s|
    requires forall i :: 0 <= i < n ==> MatchAtStart(s[i..]).None?
    ensures Strip(s) == s[..n] + Strip(s[n..])
    decreases n
  {
    if n == 0 {
      assert s[..0] + Strip(s[0..]) == Strip(s);
    } else {
      NoMatchInTail(s, n);
      StripKeepsPrefix(s[1..], n - 1);
      assert s[1..][..n - 1] == s[1..n] && s[1..][n - 1..] == s[n..];
      StripPrefixStep(s, n);
    }
  }

  /** The premise of `StripKeepsPrefix` for `s` and `n` gives it for the
      tail of `s` and `n - 1`, and says no match starts at index 0. */
  lemma NoMatchInTail(s: string, n: nat)
    requires 0 < n <= |s|
    requires forall i :: 0 <= i < n ==> MatchAtStart(s[i..]).None?
    ensures MatchAtStart(s).None?
    ensures forall i :: 0 <= i < n - 1 ==> MatchAtStart(s[1..][i..]).None?
  {
    assert s[0..] == s;
    forall i | 0 <= i < n - 1
      ensures MatchAtStart(s[1..][i..]).None?
    {
      assert s[1..][i..] == s[i + 1..];
    }
  }

  /** Keeping the first character and then `n - 1` more keeps `n`. */
  lemma StripPrefixStep(s: string, n: nat)
    requires 0 < n <= |s|
    requires MatchAtStart(s).None?
    requires Strip(s[1..]) == s[1..n] + Strip(s[n..])
    ensures Strip(s) == s[..n] + Strip(s[n..])
  {
    StripKeepsFirst(s);
    ConsAppend(s, n, Strip(s[n..]));
  }

  /** `s[0]` in front of `s[1..n]` and `rest` is `s[..n]` in front of `rest`. */
  lemma ConsAppend(s: string, n: nat, rest: string)
    requires 0 < n <= |s|
    ensures [s[0]] + (s[1..n] + rest) == s[..n] + rest
  {
    assert s[..n] == [s[0]] + s[1..n];
  }

  /** No match starts inside a broken-up `<scr` in front of `<`. */
  lemma BrokenOpeningNoMatch(u: string)
    requires |u| > 0 && u[0] == '<'
    ensures forall i :: 0 <= i < 4 ==> MatchAtStart(("<scr" + u)[i..]).None?
  {
    var s := "<scr" + u;
    forall i | 0 <= i < 4
      ensures MatchAtStart(s[i..]).None?
    {
      if i == 0 {
        NoMatchAtStart(s[i..], 4);
      } else {
        NoMatchAtStart(s[i..], 0);
      }
    }
  }

  /** The broken-up `<scr` in front is kept. */
  lemma StripKeepsBrokenOpening(u: string)
    requires |u| > 0 && u[0] == '<'
    ensures Strip("<scr" + u) == "<scr" + Strip(u)
  {
    var s := "<scr" + u;
    BrokenOpeningNoMatch(u);
    StripKeepsPrefix(s, 4);
    assert s[..4] == "<scr" && s[4..] == u;
  }

  /** One pass is not a fixpoint: removing an inner element joins `<scr`
      and `ipt>` around it into a new opening tag... */
  lemma StripJoinsPieces()
    ensures Strip("<scr" + "<script></script>ipt></script>") == "<scr" + "ipt></script>"
  {
    StripKeepsBrokenOpening("<script></script>ipt></script>");
    InnerElementRemoved();
  }

  /** The inner element goes and `ipt></script>` stays. */
  lemma InnerElementRemoved()
    ensures Strip("<script></script>ipt></script>") == "ipt></script>"
  {
    var u := "<script></script>ipt></script>";
    EmptyElementMatches("ipt></script>");
    assert u == "<script></script>" + "ipt></script>";
    StripSkipsMatch(u, 17);
    assert u[17..] == "ipt></script>";
    StripTailKept();
  }

  /** `ipt></script>` is kept as it is. */
  lemma StripTailKept()
    ensures Strip("ipt></script>") == "ipt></script>"
  {
    TailHasNoOpening();
    StripWithoutOpenTag("ipt></script>");
  }

  /** ...so the stripped text is itself, from end to end, one script
      element that the pattern matches. */
  lemma JoinedPiecesMatch()
    ensures MatchAtStart("<scr" + "ipt></script>") == Some(|"<scr" + "ipt></script>"|)
  {
    EmptyElementMatches([]);
    assert "<scr" + "ipt></script>" == "<script></script>" + [];
  }
}
