/**
 Extraction of a user's id from the user's string form, as the script does it:
 the first match of the pattern `<User\s[a-zA-Z0-9-]*\s`, stripped of
 surrounding whitespace, split on single spaces, token 1.
 */
module UserId {
  import opened Results
  import opened Text

  const Tag: string := "<User"

  /** Why extraction fails; in the script both are an IndexError. */
  datatype ExtractError =
    | NoMatch     // `findall(...)` returned an empty list, so `[0]` fails
    | NoIdToken   // `split(" ")` returned a single token, so `[1]` fails

  /** The end of the run of id characters starting at `i`. */
  function IdRunEnd(s: string, i: nat): (q: nat)
    requires i <= |s|
    ensures i <= q <= |s|
    ensures forall k :: i <= k < q ==> IsIdChar(s[k])
    ensures q < |s| ==> !IsIdChar(s[q])
    decreases |s| - i
  {
    if i < |s| && IsIdChar(s[i]) then IdRunEnd(s, i + 1) else i
  }

  /** The text `w` is a word of the pattern `<User\s[a-zA-Z0-9-]*\s`. */
  predicate InPattern(w: string) {
    && |w| >= 7
    && w[..5] == Tag
    && IsSpace(w[5])
    && (forall k :: 6 <= k < |w| - 1 ==> IsIdChar(w[k]))
    && IsSpace(w[|w| - 1])
  }

  /**
   The end of the match of the pattern that starts at `p`, if there is one.
   The greedy `[a-zA-Z0-9-]*` can only be followed by whitespace at the end of
   its longest run, so there is at most one match per start.
   */
  function MatchAt(s: string, p: nat): (r: Option<nat>)
    requires p <= |s|
    ensures r.Some? ==> p + 7 <= r.value <= |s|
  {
    if p + 6 <= |s| && s[p..p + 5] == Tag && IsSpace(s[p + 5]) then
      var q := IdRunEnd(s, p + 6);
      if q < |s| && IsSpace(s[q]) then Some(q + 1) else None
    else
      None
  }

  /** A match `MatchAt` reports is a word of the pattern. */
  lemma MatchAtSound(s: string, p: nat, e: nat)
    requires p <= e <= |s| && MatchAt(s, p) == Some(e)
    ensures InPattern(s[p..e])
  {
  }

  /** Every word of the pattern starting at `p` is the match `MatchAt` reports there. */
  lemma MatchAtComplete(s: string, p: nat, e: nat)
    requires p <= e <= |s| && InPattern(s[p..e])
    ensures MatchAt(s, p) == Some(e)
  {
  }

  /** `MatchAt` finds exactly the words of the pattern that start at `p`. */
  lemma MatchAtIsPattern(s: string, p: nat, e: nat)
    requires p <= e <= |s|
    ensures MatchAt(s, p) == Some(e) <==> InPattern(s[p..e])
  {
    if InPattern(s[p..e]) {
      MatchAtComplete(s, p, e);
    }
    if MatchAt(s, p) == Some(e) {
      MatchAtSound(s, p, e);
    }
  }

  /** `re.findall` of the pattern on `s`, scanning from `p`: every non-overlapping match, left to right. */
  function FindAll(s: string, p: nat): seq<string>
    requires p <= |s|
    decreases |s| - p
  {
    if p == |s| then []
    else
      match MatchAt(s, p)
      case Some(e) => [s[p..e]] + FindAll(s, e)
      case None => FindAll(s, p + 1)
  }

  /** Every element `findall` returns is a word of the pattern. */
  lemma {:induction false} FindAllWords(s: string, p: nat)
    requires p <= |s|
    ensures forall i :: 0 <= i < |FindAll(s, p)| ==> InPattern(FindAll(s, p)[i])
    decreases |s| - p
  {
    if p < |s| {
      match MatchAt(s, p)
      case Some(e) =>
        FindAllWords(s, e);
        MatchAtSound(s, p, e);
        var rest := FindAll(s, e);
        var r := FindAll(s, p);
        assert r == [s[p..e]] + rest;
        forall i | 0 <= i < |r| ensures InPattern(r[i]) {
          if i > 0 {
            assert r[i] == rest[i - 1];
          }
        }
      case None =>
        FindAllWords(s, p + 1);
    }
  }

  /** No match anywhere from `p` on exactly when `findall` returns nothing. */
  lemma {:induction false} FindAllEmpty(s: string, p: nat)
    requires p <= |s|
    ensures FindAll(s, p) == [] <==> forall q :: p <= q <= |s| ==> MatchAt(s, q).None?
    decreases |s| - p
  {
    if p < |s| && MatchAt(s, p).None? {
      FindAllEmpty(s, p + 1);
    }
  }

  /** The first element `findall` returns is the leftmost match. */
  lemma {:induction false} FindAllFirst(s: string, p: nat, q: nat)
    requires p <= q <= |s|
    requires MatchAt(s, q).Some?
    requires forall r :: p <= r < q ==> MatchAt(s, r).None?
    ensures FindAll(s, p) != [] && FindAll(s, p)[0] == s[q..MatchAt(s, q).value]
    decreases q - p
  {
    if p < q {
      FindAllFirst(s, p + 1, q);
    }
  }

  /** `p.findall(repr)[0].strip().split(" ")[1]`, with each failing index as an error. */
  function ExtractUserId(repr: string): (r: Result<string, ExtractError>)
    ensures r == Err(NoMatch) <==> FindAll(repr, 0) == []
    ensures r.Err? && FindAll(repr, 0) != [] ==> r == Err(NoIdToken)
  {
    var found := FindAll(repr, 0);
    if found == [] then Err(NoMatch) else IdFromMatch(found[0])
  }

  /** `w.strip().split(" ")[1]` for the match `w`. */
  function IdFromMatch(w: string): (r: Result<string, ExtractError>)
    ensures r.Err? ==> r == Err(NoIdToken)
  {
    var tokens := Split(Strip(w), ' ');
    if |tokens| < 2 then Err(NoIdToken) else Ok(tokens[1])
  }

  /** Stripping a match of the pattern removes its final whitespace character; with an empty id it removes both separators and leaves `<User`. */
  lemma StripMatch(w: string)
    requires InPattern(w)
    ensures Strip(w) == if |w| == 7 then Tag else w[..|w| - 1]
  {
    assert w[0] == '<';
    assert TrimLeft(w) == w;
    var v := w[..|w| - 1];
    assert TrimRight(w) == TrimRight(v);
    if |w| == 7 {
      assert v[..5] == Tag;
      assert TrimRight(v) == TrimRight(Tag);
      assert Tag[4] == 'r';
      assert TrimRight(Tag) == Tag;
    } else {
      assert IsIdChar(v[|v| - 1]);
      IdCharIsNotSpace(v[|v| - 1]);
    }
  }

  /** The tokens `split(" ")` makes of a stripped match of the pattern. */
  lemma MatchTokens(w: string)
    requires InPattern(w)
    ensures |w| == 7 ==> Split(Strip(w), ' ') == [Tag]
    ensures |w| > 7 && w[5] == ' ' ==> Split(Strip(w), ' ') == [Tag, w[6..|w| - 1]]
    ensures |w| > 7 && w[5] != ' ' ==> |Split(Strip(w), ' ')| == 1
  {
    StripMatch(w);
    if |w| == 7 {
      assert ' ' !in Tag;
      SplitWithoutSep(Tag, ' ');
    } else {
      IdPartHasNoSpace(w);
      if w[5] == ' ' {
        SpaceSeparatedTokens(w);
      } else {
        OtherSeparatorTokens(w);
      }
    }
  }

  /** The id part of a match contains no plain space. */
  lemma IdPartHasNoSpace(w: string)
    requires InPattern(w)
    ensures ' ' !in w[6..|w| - 1]
  {
  }

  /** With a plain space after `<User`, the stripped match splits into `<User` and the id. */
  lemma SpaceSeparatedTokens(w: string)
    requires |w| > 7 && w[..5] == Tag && w[5] == ' ' && ' ' !in w[6..|w| - 1]
    ensures Split(w[..|w| - 1], ' ') == [Tag, w[6..|w| - 1]]
  {
    var id := w[6..|w| - 1];
    assert w[..|w| - 1] == Tag + [' '] + id;
    assert ' ' !in Tag;
    SplitFirstPiece(Tag, ' ', id);
    SplitWithoutSep(id, ' ');
  }

  /** With other whitespace after `<User`, the stripped match has no plain space at all. */
  lemma OtherSeparatorTokens(w: string)
    requires |w| > 7 && w[..5] == Tag && w[5] != ' ' && ' ' !in w[6..|w| - 1]
    ensures Split(w[..|w| - 1], ' ') == [w[..|w| - 1]]
  {
    var id := w[6..|w| - 1];
    var v := w[..|w| - 1];
    assert v == Tag + [w[5]] + id;
    assert ' ' !in Tag;
    assert ' ' !in v;
    SplitWithoutSep(v, ' ');
  }

  /**
   From a word of the pattern, `strip().split(" ")[1]` gives the id exactly
   when a plain space follows `<User` and the id is not empty.
   */
  lemma IdFromPatternWord(w: string)
    requires InPattern(w)
    ensures IdFromMatch(w) == if w[5] == ' ' && |w| > 7 then Ok(w[6..|w| - 1]) else Err(NoIdToken)
  {
    MatchTokens(w);
  }

  /**
   Extraction is decided by the leftmost match alone: it yields the id
   exactly when that match separates `<User` from a non-empty id by a plain
   space; a tab or any other whitespace there, or an empty id, is an error.
   */
  lemma ExtractFromFirstMatch(s: string, q: nat, e: nat)
    requires q <= |s| && MatchAt(s, q) == Some(e)
    requires forall r :: 0 <= r < q ==> MatchAt(s, r).None?
    ensures ExtractUserId(s) == if s[q + 5] == ' ' && e > q + 7 then Ok(s[q + 6..e - 1]) else Err(NoIdToken)
  {
    ExtractIsFirstWord(s, q, e);
    IdFromMatchAt(s, q, e);
  }

  /** The id token of the match `s[q..e]`, in terms of `s`. */
  lemma IdFromMatchAt(s: string, q: nat, e: nat)
    requires q <= |s| && MatchAt(s, q) == Some(e)
    ensures IdFromMatch(s[q..e]) == if s[q + 5] == ' ' && e > q + 7 then Ok(s[q + 6..e - 1]) else Err(NoIdToken)
  {
    MatchAtSound(s, q, e);
    IdFromPatternAt(s, q, e);
  }

  /** The id token of the word of the pattern `s[q..e]`, in terms of `s`. */
  lemma IdFromPatternAt(s: string, q: nat, e: nat)
    requires q + 7 <= e <= |s| && InPattern(s[q..e])
    ensures IdFromMatch(s[q..e]) == if s[q + 5] == ' ' && e > q + 7 then Ok(s[q + 6..e - 1]) else Err(NoIdToken)
  {
    IdFromPatternWord(s[q..e]);
    TokenInSource(s, q, e, IdFromMatch(s[q..e]));
  }

  /** The outcome stated for the word `s[q..e]` restated in positions of `s`. */
  lemma TokenInSource(s: string, q: nat, e: nat, x: Result<string, ExtractError>)
    requires q + 7 <= e <= |s|
    requires var w := s[q..e]; x == if w[5] == ' ' && |w| > 7 then Ok(w[6..|w| - 1]) else Err(NoIdToken)
    ensures x == if s[q + 5] == ' ' && e > q + 7 then Ok(s[q + 6..e - 1]) else Err(NoIdToken)
  {
    var w := s[q..e];
    assert w[5] == s[q + 5];
    var v := w[6..|w| - 1];
    assert v == s[q + 6..e - 1] by {
      assert forall k :: 0 <= k < |v| ==> v[k] == s[q + 6 + k];
    }
  }

  /** Extraction works on the leftmost match alone. */
  lemma ExtractIsFirstWord(s: string, q: nat, e: nat)
    requires q <= |s| && MatchAt(s, q) == Some(e)
    requires forall r :: 0 <= r < q ==> MatchAt(s, r).None?
    ensures ExtractUserId(s) == IdFromMatch(s[q..e])
  {
    FindAllFirst(s, 0, q);
  }

  /** Without any match of the pattern, extraction fails at `findall(...)[0]`. */
  lemma ExtractWithoutMatch(s: string)
    requires forall q :: 0 <= q <= |s| ==> MatchAt(s, q).None?
    ensures ExtractUserId(s) == Err(NoMatch)
  {
    FindAllEmpty(s, 0);
  }

  /** Whatever extraction yields is a non-empty run of id characters. */
  lemma ExtractedIdShape(s: string)
    ensures ExtractUserId(s).Ok? ==>
      var id := ExtractUserId(s).value;
      id != [] && forall k :: 0 <= k < |id| ==> IsIdChar(id[k])
  {
    if FindAll(s, 0) != [] {
      FindAllEmpty(s, 0);
      var q := LeftmostMatch(s, 0);
      var e := MatchAt(s, q).value;
      ExtractFromFirstMatch(s, q, e);
      if ExtractUserId(s).Ok? {
        var id := s[q + 6..e - 1];
        forall k | 0 <= k < |id| ensures IsIdChar(id[k]) {
          assert id[k] == s[q + 6 + k];
        }
      }
    }
  }

  /** The least position from `p` on where a match starts, given that there is one. */
  lemma {:induction false} LeftmostMatch(s: string, p: nat) returns (q: nat)
    requires p <= |s|
    requires exists r :: p <= r <= |s| && MatchAt(s, r).Some?
    ensures p <= q <= |s| && MatchAt(s, q).Some?
    ensures forall r :: p <= r < q ==> MatchAt(s, r).None?
    decreases |s| - p
  {
    if MatchAt(s, p).Some? {
      q := p;
    } else {
      var r :| p <= r <= |s| && MatchAt(s, r).Some?;
      assert r != p;
      q := LeftmostMatch(s, p + 1);
    }
  }

  /**
   Round trip: a user whose string form starts `<User <id> ` (as the SDK
   prints `<User <id> name=... role=...>`) has `id` extracted.
   */
  lemma ExtractFromUserString(id: string, tail: string)
    requires id != [] && forall k :: 0 <= k < |id| ==> IsIdChar(id[k])
    ensures ExtractUserId(Tag + [' '] + id + [' '] + tail) == Ok(id)
  {
    var u := Tag + [' '] + id + [' '];
    var s := u + tail;
    UserStringPattern(id);
    assert s[0..|u|] == u;
    MatchAtComplete(s, 0, |u|);
    assert s[6..|u| - 1] == id;
    ExtractFromFirstMatch(s, 0, |u|);
  }

  lemma UserStringPattern(id: string)
    requires forall k :: 0 <= k < |id| ==> IsIdChar(id[k])
    ensures InPattern(Tag + [' '] + id + [' '])
  {
  }
}
