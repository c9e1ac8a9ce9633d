/**
 string_util::split of easyrpc/base/string_util.hpp: a strtok_r loop over the string's own buffer
 (strtok, section 7.24.5.8 of ISO C11).
 */
module StringUtil {
  import opened Wrappers

  const NUL: char := '\0'

  // ---- the maximal delimiter-free runs of a string ----

  /** Length of the longest prefix without a delimiter. */
  function Run(s: string, delims: string): (n: nat)
    ensures n <= |s|
    ensures forall i :: 0 <= i < n ==> s[i] !in delims
    ensures n < |s| ==> s[n] in delims
  {
    if s == [] || s[0] in delims then 0 else 1 + Run(s[1..], delims)
  }

  /** What a C function sees of a string through c_str(): the part before its first NUL. */
  function UpToNul(s: string): (t: string)
    ensures t <= s && NUL !in t
    ensures t == s <==> NUL !in s
  {
    s[..Run(s, [NUL])]
  }

  function Tokens(s: string, delims: string): seq<string>
    decreases |s|
  {
    if s == [] then []
    else if s[0] in delims then Tokens(s[1..], delims)
    else [s[..Run(s, delims)]] + Tokens(s[Run(s, delims)..], delims)
  }

  predicate Free(s: string, delims: string) { forall i :: 0 <= i < |s| ==> s[i] !in delims }

  predicate Delims(s: string, delims: string) { forall i :: 0 <= i < |s| ==> s[i] in delims }

  /** gaps[0] tokens[0] gaps[1] tokens[1] ... gaps[n] */
  function Weave(gaps: seq<string>, tokens: seq<string>): string
    requires |gaps| == |tokens| + 1
  {
    if tokens == [] then gaps[0] else gaps[0] + tokens[0] + Weave(gaps[1..], tokens[1..])
  }

  /** `s` is cut into nonempty delimiter-free tokens and gaps of delimiters, with a gap between any two tokens. */
  ghost predicate Cuts(s: string, delims: string, gaps: seq<string>, tokens: seq<string>) {
    && |gaps| == |tokens| + 1
    && s == Weave(gaps, tokens)
    && (forall i :: 0 <= i < |gaps| ==> Delims(gaps[i], delims))
    && (forall i :: 0 < i < |gaps| - 1 ==> gaps[i] != "")
    && (forall i :: 0 <= i < |tokens| ==> tokens[i] != "" && Free(tokens[i], delims))
  }

  lemma {:induction false} TokensSkip(gap: string, s: string, delims: string)
    requires Delims(gap, delims)
    ensures Tokens(gap + s, delims) == Tokens(s, delims)
  {
    if gap == "" {
      assert gap + s == s;
    } else {
      assert (gap + s)[0] == gap[0] && (gap + s)[1..] == gap[1..] + s;
      TokensSkip(gap[1..], s, delims);
    }
  }

  lemma {:induction false} RunOf(token: string, s: string, delims: string)
    requires Free(token, delims) && (s == "" || s[0] in delims)
    ensures Run(token + s, delims) == |token|
  {
    if token == "" {
      assert token + s == s;
    } else {
      assert (token + s)[1..] == token[1..] + s;
      RunOf(token[1..], s, delims);
    }
  }

  /** The first token of a string that starts with a run followed by a delimiter or the end. */
  lemma TokensTake(token: string, s: string, delims: string)
    requires token != "" && Free(token, delims) && (s == "" || s[0] in delims)
    ensures Tokens(token + s, delims) == [token] + Tokens(s, delims)
  {
    RunOf(token, s, delims);
    assert (token + s)[..|token|] == token && (token + s)[|token|..] == s;
    assert (token + s)[0] == token[0];
  }

  /** There is exactly one way to cut a string, and Tokens finds it: the maximal runs, in order. */
  lemma {:induction false} TokensUnique(s: string, delims: string, gaps: seq<string>, tokens: seq<string>)
    requires Cuts(s, delims, gaps, tokens)
    ensures tokens == Tokens(s, delims)
    decreases |tokens|
  {
    if tokens == [] {
      assert s + "" == s;
      TokensSkip(s, "", delims);
    } else {
      var rest := Weave(gaps[1..], tokens[1..]);
      assert Cuts(rest, delims, gaps[1..], tokens[1..]);
      TokensUnique(rest, delims, gaps[1..], tokens[1..]);
      assert rest == "" || rest[0] in delims by {
        if |tokens| > 1 {
          assert gaps[1] != "" && rest[0] == gaps[1][0];
        } else {
          assert rest == gaps[1];
        }
      }
      assert s == gaps[0] + (tokens[0] + rest);
      TokensSkip(gaps[0], tokens[0] + rest, delims);
      TokensTake(tokens[0], rest, delims);
    }
  }

  /** And such a cut exists for every string. */
  lemma {:induction false} TokensCut(s: string, delims: string) returns (gaps: seq<string>)
    ensures Cuts(s, delims, gaps, Tokens(s, delims))
    ensures s != "" && s[0] in delims ==> gaps[0] != ""
    decreases |s|
  {
    if s == [] {
      gaps := [""];
    } else if s[0] in delims {
      var rest := TokensCut(s[1..], delims);
      gaps := [[s[0]] + rest[0]] + rest[1..];
      CutSkip(s[0], s[1..], delims, rest, Tokens(s[1..], delims));
      assert [s[0]] + s[1..] == s;
    } else {
      var n := Run(s, delims);
      var rest := TokensCut(s[n..], delims);
      gaps := [""] + rest;
      assert n == |s| ==> Tokens(s[n..], delims) == [];
      CutTake(s[..n], s[n..], delims, rest, Tokens(s[n..], delims));
      assert s[..n] + s[n..] == s;
    }
  }

  lemma CutSkip(c: char, s: string, delims: string, gaps: seq<string>, tokens: seq<string>)
    requires c in delims && Cuts(s, delims, gaps, tokens)
    ensures Cuts([c] + s, delims, [[c] + gaps[0]] + gaps[1..], tokens)
  {
    var gaps' := [[c] + gaps[0]] + gaps[1..];
    if tokens != [] {
      assert gaps'[1..] == gaps[1..];
      var rest := Weave(gaps[1..], tokens[1..]);
      assert ([c] + gaps[0]) + tokens[0] + rest == [c] + (gaps[0] + tokens[0] + rest);
    }
  }

  lemma CutTake(token: string, s: string, delims: string, gaps: seq<string>, tokens: seq<string>)
    requires token != "" && Free(token, delims) && Cuts(s, delims, gaps, tokens)
    requires tokens != [] ==> gaps[0] != ""
    ensures Cuts(token + s, delims, [""] + gaps, [token] + tokens)
  {
    var gaps', tokens' := [""] + gaps, [token] + tokens;
    assert gaps'[1..] == gaps && tokens'[1..] == tokens;
    assert "" + token + Weave(gaps, tokens) == token + s;
  }

  // ---- strtok_r in the buffer ----

  /** The C string that starts at `from`. */
  ghost function CString(buffer: seq<char>, from: nat): string
    requires from < |buffer| && buffer[|buffer| - 1] == NUL
    decreases |buffer| - from
  {
    if buffer[from] == NUL then "" else [buffer[from]] + CString(buffer, from + 1)
  }

  /** The buffer changes only by delimiters that become NUL. */
  ghost predicate OnlyDelimitersCut(before: seq<char>, after: seq<char>, delims: string) {
    && |after| == |before|
    && forall i :: 0 <= i < |before| ==> after[i] == before[i] || (before[i] in delims && after[i] == NUL)
  }

  lemma {:induction false} CStringFrame(b: seq<char>, c: seq<char>, from: nat)
    requires |b| == |c| && from < |b| && b[|b| - 1] == NUL && b[from..] == c[from..]
    ensures c[|c| - 1] == NUL && CString(b, from) == CString(c, from)
    decreases |b| - from
  {
    assert c[from] == c[from..][0] && b[from] == b[from..][0];
    assert c[|c| - 1] == c[from..][|c| - 1 - from] && b[|b| - 1] == b[from..][|b| - 1 - from];
    if b[from] != NUL {
      assert b[from + 1..] == b[from..][1..] && c[from + 1..] == c[from..][1..];
      CStringFrame(b, c, from + 1);
    }
  }

  /** strspn: the first position from `from` on that is not a delimiter. */
  method SkipDelimiters(buffer: array<char>, delims: string, from: nat) returns (start: nat)
    requires from < buffer.Length && buffer[buffer.Length - 1] == NUL && NUL !in delims
    ensures from <= start < buffer.Length && buffer[start] !in delims
    ensures Tokens(CString(buffer[..], start), delims) == Tokens(CString(buffer[..], from), delims)
  {
    start := from;
    while buffer[start] != NUL && buffer[start] in delims
      invariant from <= start < buffer.Length
      invariant Tokens(CString(buffer[..], start), delims) == Tokens(CString(buffer[..], from), delims)
      decreases buffer.Length - start
    {
      HeadOf(buffer[..], start);
      start := start + 1;
    }
  }

  lemma HeadOf(b: seq<char>, from: nat)
    requires from < |b| && b[|b| - 1] == NUL && b[from] != NUL
    ensures from + 1 < |b| && CString(b, from)[0] == b[from] && CString(b, from)[1..] == CString(b, from + 1)
  {
  }

  /** strcspn: the first position from `start` on that is a delimiter or the end. */
  method FindEnd(buffer: array<char>, delims: string, start: nat) returns (end: nat)
    requires start < buffer.Length && buffer[buffer.Length - 1] == NUL
    ensures start <= end < buffer.Length && (buffer[end] == NUL || buffer[end] in delims)
    ensures Free(buffer[start..end], delims)
    ensures CString(buffer[..], start) == buffer[start..end] + CString(buffer[..], end)
    ensures end == start ==> buffer[start] == NUL || buffer[start] in delims
  {
    ghost var b, run := buffer[..], "";
    end := start;
    while buffer[end] != NUL && buffer[end] !in delims
      invariant start <= end < buffer.Length
      invariant run == b[start..end] && Free(run, delims)
      invariant CString(b, start) == run + CString(b, end)
      decreases buffer.Length - end
    {
      ExtendRun(CString(b, start), run, b, end);
      run := run + [b[end]];
      end := end + 1;
    }
    assert buffer[start..end] == run;
  }

  lemma ExtendRun(whole: string, run: string, b: seq<char>, end: nat)
    requires end < |b| && b[|b| - 1] == NUL && b[end] != NUL
    requires whole == run + CString(b, end)
    ensures whole == run + [b[end]] + CString(b, end + 1)
  {
    assert CString(b, end) == [b[end]] + CString(b, end + 1);
  }

  /** One strtok_r call that continues at `from`; None is a null pointer. */
  method StrTok(buffer: array<char>, delims: string, from: nat) returns (token: Option<string>, save: nat)
    requires from < buffer.Length && buffer[buffer.Length - 1] == NUL && NUL !in delims
    modifies buffer
    ensures OnlyDelimitersCut(old(buffer[..]), buffer[..], delims)
    ensures from <= save < buffer.Length && buffer[buffer.Length - 1] == NUL
    ensures token.Some? ==> save > from
    ensures Tokens(CString(old(buffer[..]), from), delims) ==
            if token.Some? then [token.value] + Tokens(CString(buffer[..], save), delims) else []
  {
    ghost var b := buffer[..];
    var start := SkipDelimiters(buffer, delims, from);
    if buffer[start] == NUL {
      return None, start;
    }
    var end := FindEnd(buffer, delims, start);
    token := Some(buffer[start..end]);
    FirstToken(b, token.value, start, end, delims);
    if buffer[end] == NUL {
      save := end;
    } else {
      buffer[end] := NUL;
      save := end + 1;
      assert b[save..] == buffer[..][save..];
      CStringFrame(b, buffer[..], save);
    }
  }

  lemma FirstToken(b: seq<char>, token: string, start: nat, end: nat, delims: string)
    requires start <= end < |b| && b[|b| - 1] == NUL && (b[end] == NUL || b[end] in delims)
    requires token != "" && Free(token, delims) && CString(b, start) == token + CString(b, end)
    ensures b[end] == NUL ==> Tokens(CString(b, start), delims) == [token] + Tokens(CString(b, end), delims)
    ensures b[end] != NUL ==>
              end + 1 < |b| && Tokens(CString(b, start), delims) == [token] + Tokens(CString(b, end + 1), delims)
  {
    TokensTake(token, CString(b, end), delims);
    if b[end] != NUL {
      HeadOf(b, end);
    }
  }

  /** What strtok_r has left to say: the token just returned and those of the rest. */
  ghost function Remaining(now: seq<char>, delims: string, token: Option<string>, save: nat): seq<string>
    requires save < |now| && now[|now| - 1] == NUL
  {
    if token.Some? then [token.value] + Tokens(CString(now, save), delims) else []
  }

  /** `result` and what remains are the tokens of the string, and the buffer has been cut at delimiters only. */
  ghost predicate SplitSoFar(
    before: seq<char>, now: seq<char>, delims: string, result: seq<string>, token: Option<string>, save: nat)
  {
    && save < |now| && now[|now| - 1] == NUL && before != [] && before[|before| - 1] == NUL
    && OnlyDelimitersCut(before, now, delims)
    && Tokens(CString(before, 0), delims) == result + Remaining(now, delims, token, save)
  }

  /** One turn of the loop: the token goes to the result, and strtok_r is called again. */
  lemma NextTurn(
    before: seq<char>, now: seq<char>, next: seq<char>, delims: string, result: seq<string>,
    token: Option<string>, save: nat, token': Option<string>, save': nat)
    requires NUL !in delims && token.Some? && SplitSoFar(before, now, delims, result, token, save)
    requires OnlyDelimitersCut(now, next, delims) && save' < |next| && next[|next| - 1] == NUL
    requires Tokens(CString(now, save), delims) == Remaining(next, delims, token', save')
    ensures SplitSoFar(before, next, delims, result + [token.value], token', save')
  {
    CutsCompose(before, now, next, delims);
    var rest := Remaining(next, delims, token', save');
    assert result + ([token.value] + rest) == result + [token.value] + rest;
  }

  lemma CutsCompose(before: seq<char>, now: seq<char>, next: seq<char>, delims: string)
    requires NUL !in delims && OnlyDelimitersCut(before, now, delims) && OnlyDelimitersCut(now, next, delims)
    ensures OnlyDelimitersCut(before, next, delims)
  {
  }

  lemma FirstTurn(before: seq<char>, now: seq<char>, delims: string, token: Option<string>, save: nat)
    requires before != [] && before[|before| - 1] == NUL && OnlyDelimitersCut(before, now, delims)
    requires save < |now| && now[|now| - 1] == NUL
    requires Tokens(CString(before, 0), delims) == Remaining(now, delims, token, save)
    ensures SplitSoFar(before, now, delims, [], token, save)
  {
    var rest := Remaining(now, delims, token, save);
    assert [] + rest == rest;
  }

  lemma LastTurn(before: seq<char>, now: seq<char>, delims: string, result: seq<string>, save: nat)
    requires SplitSoFar(before, now, delims, result, None, save)
    ensures result == Tokens(CString(before, 0), delims) && OnlyDelimitersCut(before, now, delims)
  {
    assert result + [] == result;
  }

  /** strtok_r(nullptr, ...), 80-82. */
  method Continue(buffer: array<char>, delims: string, last: string, from: nat, ghost before: seq<char>, ghost done: seq<string>)
    returns (token: Option<string>, save: nat)
    requires NUL !in delims && SplitSoFar(before, buffer[..], delims, done, Some(last), from)
    modifies buffer
    ensures SplitSoFar(before, buffer[..], delims, done + [last], token, save)
    ensures token.Some? ==> save > from
  {
    ghost var now := buffer[..];
    token, save := StrTok(buffer, delims, from);
    NextTurn(before, now, buffer[..], delims, done, Some(last), from, token, save);
  }

  /** 67-86. */
  method Split(buffer: array<char>, delims: string) returns (result: seq<string>)
    requires buffer.Length > 0 && buffer[buffer.Length - 1] == NUL && NUL !in delims
    modifies buffer
    ensures result == Tokens(CString(old(buffer[..]), 0), delims)
    ensures OnlyDelimitersCut(old(buffer[..]), buffer[..], delims)
  {
    ghost var before := buffer[..];
    var token, save := StrTok(buffer, delims, 0);
    FirstTurn(before, buffer[..], delims, token, save);
    result := [];
    while token.Some?
      invariant SplitSoFar(before, buffer[..], delims, result, token, save)
      decreases token.Some?, buffer.Length - save
    {
      var last := token.value;
      token, save := Continue(buffer, delims, last, save, before, result);
      result := result + [last];
    }
    LastTurn(before, buffer[..], delims, result, save);
  }
}
