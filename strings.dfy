/**
 * `Strings.toCamelCase`: split the text at every run of characters other than ASCII letters and
 * between a lower-case letter and a following upper-case one, then append each token with its first
 * letter upper-cased and the rest lower-cased.
 */
module CamelCase {

  predicate IsLower(c: char) { 'a' <= c <= 'z' }

  predicate IsUpper(c: char) { 'A' <= c <= 'Z' }

  /** The letters the separator pattern `[^a-zA-Z]` does not match. */
  predicate IsLetter(c: char) { IsLower(c) || IsUpper(c) }

  /** `Character.toTitleCase` on an ASCII letter: its upper-case form. */
  function ToUpper(c: char): char
  {
    if IsLower(c) then (c as int - 32) as char else c
  }

  /** `toLowerCase(Locale.ENGLISH)` on an ASCII letter. */
  function ToLower(c: char): char
  {
    if IsUpper(c) then (c as int + 32) as char else c
  }

  function LowerAll(s: string): string
  {
    seq(|s|, k requires 0 <= k < |s| => ToLower(s[k]))
  }

  /** The ASCII letters of `s`, in order. */
  function Letters(s: string): (r: string)
    ensures |r| <= |s|
    ensures forall k :: 0 <= k < |r| ==> IsLetter(r[k])
  {
    if s == [] then [] else (if IsLetter(s[0]) then [s[0]] else []) + Letters(s[1..])
  }

  /** A token of the split: ASCII letters only, never a lower-case letter followed by an upper-case one. */
  predicate Word(t: string)
  {
    && (forall k :: 0 <= k < |t| ==> IsLetter(t[k]))
    && (forall k :: 0 < k < |t| ==> !CaseBoundary(t, k))
  }

  // ---------------------------------------------------------------------------------------------
  // `WORD_SEPARATOR.split(source)`.

  /** The zero-width alternative `(?<=[a-z])(?=[A-Z])` matches just before position `i`. */
  predicate CaseBoundary(s: string, i: int)
  {
    0 < i < |s| && IsLower(s[i - 1]) && IsUpper(s[i])
  }

  /** The pattern matches somewhere in `s`. */
  predicate HasSeparator(s: string)
  {
    exists i :: 0 <= i < |s| && (!IsLetter(s[i]) || CaseBoundary(s, i))
  }

  /** The end of the greedy run `[^a-zA-Z]+` that starts at `i`. */
  function RunEnd(s: string, i: nat): (j: nat)
    requires i <= |s|
    ensures i <= j <= |s|
    ensures forall k :: i <= k < j ==> !IsLetter(s[k])
    ensures j < |s| ==> IsLetter(s[j])
    decreases |s| - i
  {
    if i == |s| || IsLetter(s[i]) then i else RunEnd(s, i + 1)
  }

  /**
   * The pieces of `s` from position `i` on, the current piece having begun at `start`: a run of
   * non-letters ends the piece and is dropped, a case boundary ends the piece and keeps its letters
   * for the next one, and the last piece runs to the end of the text.
   */
  function SplitFrom(s: string, start: nat, i: nat): seq<string>
    requires start <= i <= |s|
    decreases |s| - i
  {
    if i == |s| then [s[start..]]
    else if !IsLetter(s[i]) then
      var j := RunEnd(s, i);
      [s[start..i]] + SplitFrom(s, j, j)
    else if CaseBoundary(s, i) then [s[start..i]] + SplitFrom(s, i, i + 1)
    else SplitFrom(s, start, i + 1)
  }

  /** A split without a limit drops the trailing empty pieces. */
  function DropTrailingEmpty(ps: seq<string>): seq<string>
  {
    if ps != [] && ps[|ps| - 1] == [] then DropTrailingEmpty(ps[..|ps| - 1]) else ps
  }

  /** `Pattern.split`: the whole text when the pattern never matches, the pieces otherwise. */
  function Split(s: string): seq<string>
  {
    if !HasSeparator(s) then [s] else DropTrailingEmpty(SplitFrom(s, 0, 0))
  }

  // ---------------------------------------------------------------------------------------------
  // Joining the tokens.

  /** What one token appends: its first letter title-cased and the rest lower-cased; nothing if empty. */
  function Capitalize(t: string): string
  {
    if t == [] then [] else [ToUpper(t[0])] + LowerAll(t[1..])
  }

  /** The text built from the tokens, in order. */
  function CamelJoin(ts: seq<string>): string
  {
    if ts == [] then [] else CamelJoin(ts[..|ts| - 1]) + Capitalize(ts[|ts| - 1])
  }

  /** `toCamelCase(source)`. */
  function ToCamelCaseSpec(s: string): string
  {
    CamelJoin(Split(s))
  }

  function Concat(ps: seq<string>): string
  {
    if ps == [] then [] else Concat(ps[..|ps| - 1]) + ps[|ps| - 1]
  }

  /** `Strings.toCamelCase`, appending token by token. */
  method ToCamelCase(source: string) returns (target: string)
    ensures target == ToCamelCaseSpec(source)
    ensures forall k :: 0 <= k < |target| ==> IsLetter(target[k])
    ensures LowerAll(target) == LowerAll(Letters(source))
    ensures target != [] ==> IsUpper(target[0])
  {
    var tokens := Split(source);
    target := [];
    for i := 0 to |tokens|
      invariant target == CamelJoin(tokens[..i])
    {
      assert tokens[..i + 1][..i] == tokens[..i];
      var token := tokens[i];
      if token == [] {
        continue;
      }
      target := target + [ToUpper(token[0])] + LowerAll(token[1..]);
    }
    assert tokens[..|tokens|] == tokens;
    CamelCaseMeaning(source);
  }

  // ---------------------------------------------------------------------------------------------
  // What the split produces.

  lemma {:induction false} ConcatCons(p: string, ps: seq<string>)
    ensures Concat([p] + ps) == p + Concat(ps)
    decreases |ps|
  {
    if ps != [] {
      var init := ps[..|ps| - 1];
      assert ([p] + ps)[..|ps|] == [p] + init;
      ConcatCons(p, init);
    } else {
      assert [p][..0] == [];
    }
  }

  lemma {:induction false} LettersOfSuffix(s: string, i: nat)
    requires i < |s|
    ensures Letters(s[i..]) == (if IsLetter(s[i]) then [s[i]] else []) + Letters(s[i + 1..])
  {
    assert s[i..][1..] == s[i + 1..];
  }

  /** Skipping a run of non-letters loses no letter. */
  lemma {:induction false} LettersSkipRun(s: string, i: nat, j: nat)
    requires i <= j <= |s|
    requires forall k :: i <= k < j ==> !IsLetter(s[k])
    ensures Letters(s[i..]) == Letters(s[j..])
    decreases j - i
  {
    if i < j {
      LettersOfSuffix(s, i);
      LettersSkipRun(s, i + 1, j);
    }
  }

  /** A word extended by a letter that does not follow a lower-case letter with an upper-case one. */
  lemma {:induction false} WordExtends(s: string, start: nat, i: nat)
    requires start <= i < |s| && Word(s[start..i]) && IsLetter(s[i])
    requires start < i ==> !CaseBoundary(s, i)
    ensures Word(s[start..i + 1])
  {
    var t := s[start..i + 1];
    forall k | 0 <= k < |t|
      ensures IsLetter(t[k])
    {
      if k < i - start {
        assert t[k] == s[start..i][k];
      }
    }
    forall k | 0 < k < |t|
      ensures !CaseBoundary(t, k)
    {
      if k < i - start {
        assert t[k - 1] == s[start..i][k - 1] && t[k] == s[start..i][k];
        assert !CaseBoundary(s[start..i], k);
      } else {
        assert t[k - 1] == s[i - 1] && t[k] == s[i];
      }
    }
  }

  /** From position `i` on, with the current piece a word, every piece is a word. */
  lemma {:induction false} SplitFromWords(s: string, start: nat, i: nat)
    requires start <= i <= |s| && Word(s[start..i])
    ensures forall k :: 0 <= k < |SplitFrom(s, start, i)| ==> Word(SplitFrom(s, start, i)[k])
    decreases |s| - i
  {
    if i == |s| {
      assert s[start..] == s[start..i];
    } else if !IsLetter(s[i]) {
      var j := RunEnd(s, i);
      assert Word(s[j..j]);
      SplitFromWords(s, j, j);
    } else if CaseBoundary(s, i) {
      assert Word(s[i..i]);
      WordExtends(s, i, i);
      SplitFromWords(s, i, i + 1);
    } else {
      WordExtends(s, start, i);
      SplitFromWords(s, start, i + 1);
    }
  }

  /**
   * From position `i` on, the pieces together are the current piece followed by the letters of the
   * rest of the text.
   */
  lemma {:induction false} SplitFromLetters(s: string, start: nat, i: nat)
    requires start <= i <= |s|
    ensures Concat(SplitFrom(s, start, i)) == s[start..i] + Letters(s[i..])
    decreases |s| - i
  {
    if i == |s| {
      assert s[i..] == [];
      assert s[start..] == s[start..i];
      assert [s[start..]][..0] == [];
      assert Concat([s[start..]]) == [] + s[start..];
    } else if !IsLetter(s[i]) {
      var j := RunEnd(s, i);
      SplitFromLetters(s, j, j);
      LettersAfterRun(s, start, i);
    } else if CaseBoundary(s, i) {
      SplitFromLetters(s, i, i + 1);
      LettersAfterBoundary(s, start, i);
    } else {
      SplitFromLetters(s, start, i + 1);
      LettersAfterLetter(s, start, i);
    }
  }

  lemma {:induction false} LettersAfterRun(s: string, start: nat, i: nat)
    requires start <= i < |s| && !IsLetter(s[i])
    requires Concat(SplitFrom(s, RunEnd(s, i), RunEnd(s, i))) == s[RunEnd(s, i)..RunEnd(s, i)] + Letters(s[RunEnd(s, i)..])
    ensures Concat(SplitFrom(s, start, i)) == s[start..i] + Letters(s[i..])
  {
    var j := RunEnd(s, i);
    calc {
      Concat(SplitFrom(s, start, i));
      Concat([s[start..i]] + SplitFrom(s, j, j));
      { ConcatCons(s[start..i], SplitFrom(s, j, j)); }
      s[start..i] + Concat(SplitFrom(s, j, j));
      { assert s[j..j] == []; }
      s[start..i] + Letters(s[j..]);
      { LettersSkipRun(s, i, j); }
      s[start..i] + Letters(s[i..]);
    }
  }

  lemma {:induction false} LettersAfterBoundary(s: string, start: nat, i: nat)
    requires start <= i < |s| && IsLetter(s[i]) && CaseBoundary(s, i)
    requires Concat(SplitFrom(s, i, i + 1)) == s[i..i + 1] + Letters(s[i + 1..])
    ensures Concat(SplitFrom(s, start, i)) == s[start..i] + Letters(s[i..])
  {
    calc {
      Concat(SplitFrom(s, start, i));
      Concat([s[start..i]] + SplitFrom(s, i, i + 1));
      { ConcatCons(s[start..i], SplitFrom(s, i, i + 1)); }
      s[start..i] + Concat(SplitFrom(s, i, i + 1));
      { assert s[i..i + 1] == [s[i]]; LettersOfSuffix(s, i); }
      s[start..i] + Letters(s[i..]);
    }
  }

  lemma {:induction false} LettersAfterLetter(s: string, start: nat, i: nat)
    requires start <= i < |s| && IsLetter(s[i]) && !CaseBoundary(s, i)
    requires Concat(SplitFrom(s, start, i + 1)) == s[start..i + 1] + Letters(s[i + 1..])
    ensures Concat(SplitFrom(s, start, i)) == s[start..i] + Letters(s[i..])
  {
    assert s[start..i + 1] == s[start..i] + [s[i]];
    LettersOfSuffix(s, i);
  }

  lemma {:induction false} DropTrailingEmptyFacts(ps: seq<string>)
    ensures forall k :: 0 <= k < |DropTrailingEmpty(ps)| ==> DropTrailingEmpty(ps)[k] in ps
    ensures Concat(DropTrailingEmpty(ps)) == Concat(ps)
  {
    if ps != [] && ps[|ps| - 1] == [] {
      var init := ps[..|ps| - 1];
      DropTrailingEmptyFacts(init);
      assert forall k :: 0 <= k < |init| ==> init[k] in ps;
    }
  }

  lemma {:induction false} LettersOfLetters(s: string)
    requires forall k :: 0 <= k < |s| ==> IsLetter(s[k])
    ensures Letters(s) == s
  {
    if s != [] {
      LettersOfLetters(s[1..]);
    }
  }

  /** Every token is a word, and the tokens together are exactly the letters of the text. */
  lemma {:induction false} SplitIntoWords(s: string)
    ensures forall k :: 0 <= k < |Split(s)| ==> Word(Split(s)[k])
    ensures Concat(Split(s)) == Letters(s)
  {
    if !HasSeparator(s) {
      assert forall k :: 0 <= k < |s| ==> IsLetter(s[k]);
      assert Word(s);
      LettersOfLetters(s);
      assert [s][..0] == [];
    } else {
      assert Word(s[0..0]);
      SplitFromWords(s, 0, 0);
      SplitFromLetters(s, 0, 0);
      assert s[0..] == s;
      DropTrailingEmptyFacts(SplitFrom(s, 0, 0));
    }
  }

  // ---------------------------------------------------------------------------------------------
  // What the join produces.

  lemma {:induction false} LowerAllAppend(a: string, b: string)
    ensures LowerAll(a + b) == LowerAll(a) + LowerAll(b)
  {
  }

  /** A word's capitalized form: letters only, the same letters up to case, upper-case first. */
  lemma {:induction false} CapitalizeWord(t: string)
    requires Word(t)
    ensures forall k :: 0 <= k < |Capitalize(t)| ==> IsLetter(Capitalize(t)[k])
    ensures LowerAll(Capitalize(t)) == LowerAll(t)
    ensures t != [] ==> IsUpper(Capitalize(t)[0])
  {
    if t != [] {
      assert t == [t[0]] + t[1..];
      LowerAllAppend([ToUpper(t[0])], LowerAll(t[1..]));
      LowerAllAppend([t[0]], t[1..]);
    }
  }

  lemma {:induction false} CamelJoinWords(ts: seq<string>)
    requires forall k :: 0 <= k < |ts| ==> Word(ts[k])
    ensures forall k :: 0 <= k < |CamelJoin(ts)| ==> IsLetter(CamelJoin(ts)[k])
    ensures LowerAll(CamelJoin(ts)) == LowerAll(Concat(ts))
    ensures CamelJoin(ts) != [] ==> IsUpper(CamelJoin(ts)[0])
  {
    if ts != [] {
      var init := ts[..|ts| - 1];
      var last := ts[|ts| - 1];
      CamelJoinWords(init);
      CapitalizeWord(last);
      LowerAllAppend(CamelJoin(init), Capitalize(last));
      LowerAllAppend(Concat(init), last);
    }
  }

  /**
   * The camel-case text consists of ASCII letters only: the letters of the source, in order, with
   * only their case changed; it is empty exactly when the source has no letter, and otherwise begins
   * with an upper-case letter.
   */
  lemma {:induction false} CamelCaseMeaning(s: string)
    ensures forall k :: 0 <= k < |ToCamelCaseSpec(s)| ==> IsLetter(ToCamelCaseSpec(s)[k])
    ensures LowerAll(ToCamelCaseSpec(s)) == LowerAll(Letters(s))
    ensures |ToCamelCaseSpec(s)| == |Letters(s)|
    ensures ToCamelCaseSpec(s) == [] <==> Letters(s) == []
    ensures ToCamelCaseSpec(s) != [] ==> IsUpper(ToCamelCaseSpec(s)[0])
  {
    SplitIntoWords(s);
    CamelJoinWords(Split(s));
    assert |LowerAll(ToCamelCaseSpec(s))| == |LowerAll(Letters(s))|;
  }

  // ---------------------------------------------------------------------------------------------
  // The case of each output letter.

  /** The letter at `p` begins a token: it is the first character, follows a non-letter, or is an
   *  upper-case letter right after a lower-case one. */
  predicate StartsToken(s: string, p: int)
  {
    0 <= p < |s| && (p == 0 || !IsLetter(s[p - 1]) || CaseBoundary(s, p))
  }

  /** The letters of `s` from `i` on, each upper-cased when it begins a token and lower-cased otherwise. */
  function CaseByPosition(s: string, i: nat): (r: string)
    requires i <= |s|
    decreases |s| - i
  {
    if i == |s| then []
    else if !IsLetter(s[i]) then CaseByPosition(s, i + 1)
    else if StartsToken(s, i) then [ToUpper(s[i])] + CaseByPosition(s, i + 1)
    else [ToLower(s[i])] + CaseByPosition(s, i + 1)
  }

  lemma {:induction false} CamelJoinSnoc(ts: seq<string>, t: string)
    ensures CamelJoin(ts + [t]) == CamelJoin(ts) + Capitalize(t)
  {
    assert (ts + [t])[..|ts|] == ts;
  }

  lemma {:induction false} CamelJoinCons(t: string, ts: seq<string>)
    ensures CamelJoin([t] + ts) == Capitalize(t) + CamelJoin(ts)
    decreases |ts|
  {
    if ts == [] {
      assert [t] + ts == [t];
      assert [t][..0] == [];
    } else {
      var init, last := ts[..|ts| - 1], ts[|ts| - 1];
      assert ts == init + [last];
      CamelJoinCons(t, init);
      CamelJoinConsStep(t, init, last);
    }
  }

  lemma {:induction false} CamelJoinConsStep(t: string, init: seq<string>, last: string)
    requires CamelJoin([t] + init) == Capitalize(t) + CamelJoin(init)
    ensures CamelJoin([t] + (init + [last])) == Capitalize(t) + CamelJoin(init + [last])
  {
    assert [t] + (init + [last]) == ([t] + init) + [last];
    CamelJoinSnoc([t] + init, last);
    CamelJoinSnoc(init, last);
    AppendAssoc(Capitalize(t), CamelJoin(init), Capitalize(last));
  }

  lemma {:induction false} AppendAssoc(a: string, b: string, c: string)
    ensures (a + b) + c == a + (b + c)
  {
  }

  lemma {:induction false} CamelJoinDropTrailingEmpty(ps: seq<string>)
    ensures CamelJoin(DropTrailingEmpty(ps)) == CamelJoin(ps)
    decreases |ps|
  {
    if ps != [] && ps[|ps| - 1] == [] {
      CamelJoinDropTrailingEmpty(ps[..|ps| - 1]);
    }
  }

  /** A run of non-letters adds nothing. */
  lemma {:induction false} CaseByPositionSkipsRun(s: string, i: nat, j: nat)
    requires i <= j <= |s|
    requires forall k :: i <= k < j ==> !IsLetter(s[k])
    ensures CaseByPosition(s, i) == CaseByPosition(s, j)
    decreases j - i
  {
    if i < j {
      CaseByPositionSkipsRun(s, i + 1, j);
    }
  }

  /** A letter appended to a non-empty piece is lower-cased. */
  lemma {:induction false} CapitalizeSnoc(t: string, c: char)
    requires t != []
    ensures Capitalize(t + [c]) == Capitalize(t) + [ToLower(c)]
  {
    assert (t + [c])[1..] == t[1..] + [c];
    LowerAllAppend(t[1..], [c]);
  }

  lemma {:induction false} SliceSnoc(s: string, a: nat, b: nat)
    requires a <= b < |s|
    ensures s[a..b + 1] == s[a..b] + [s[b]]
  {
  }

  /**
   * The current piece began at `start`, at a token start, and has taken in the letters before `i`,
   * none of them at a case boundary.
   */
  predicate InPiece(s: string, start: nat, i: nat)
  {
    start <= i <= |s| &&
    (forall k :: start <= k < i ==> IsLetter(s[k])) &&
    (forall k :: start < k < i ==> !CaseBoundary(s, k)) &&
    (start < |s| ==> StartsToken(s, start))
  }

  /** Where the scan of `SplitFrom` goes on from `i`: the start of the piece then open, and its position. */
  function NextCursor(s: string, start: nat, i: nat): (c: (nat, nat))
    requires start <= i < |s|
    ensures c.0 <= c.1 <= |s| && i < c.1
  {
    if !IsLetter(s[i]) then (RunEnd(s, i), RunEnd(s, i))
    else if CaseBoundary(s, i) then (i, i + 1)
    else (start, i + 1)
  }

  /**
   * The pieces still to come join to the current piece's capitalized prefix followed by the
   * letters from `i` on, each in its positional case.
   */
  lemma {:induction false} SplitFromCase(s: string, start: nat, i: nat)
    requires InPiece(s, start, i)
    ensures CamelJoin(SplitFrom(s, start, i)) == Capitalize(s[start..i]) + CaseByPosition(s, i)
    decreases |s| - i
  {
    if i == |s| {
      CaseAtEnd(s, start);
    } else {
      var c := NextCursor(s, start, i);
      NextCursorInPiece(s, start, i);
      SplitFromCase(s, c.0, c.1);
      CaseStep(s, start, i);
    }
  }

  /** The scan goes on inside a piece. */
  lemma {:induction false} NextCursorInPiece(s: string, start: nat, i: nat)
    requires InPiece(s, start, i) && i < |s|
    ensures InPiece(s, NextCursor(s, start, i).0, NextCursor(s, start, i).1)
  {
    if !IsLetter(s[i]) {
      RunEndOpensPiece(s, i);
    } else if CaseBoundary(s, i) {
      BoundaryOpensPiece(s, i);
    } else {
      LetterExtendsPiece(s, start, i);
    }
  }

  /** One step of the scan keeps the joined text equal to the positional case of the letters. */
  lemma {:induction false} CaseStep(s: string, start: nat, i: nat)
    requires InPiece(s, start, i) && i < |s|
    requires var c := NextCursor(s, start, i);
      CamelJoin(SplitFrom(s, c.0, c.1)) == Capitalize(s[c.0..c.1]) + CaseByPosition(s, c.1)
    ensures CamelJoin(SplitFrom(s, start, i)) == Capitalize(s[start..i]) + CaseByPosition(s, i)
  {
    if !IsLetter(s[i]) {
      CaseAfterRun(s, start, i);
    } else if CaseBoundary(s, i) {
      CaseAfterBoundary(s, start, i);
    } else {
      CaseAfterLetter(s, start, i);
    }
  }

  lemma {:induction false} CaseAtEnd(s: string, start: nat)
    requires start <= |s|
    ensures CamelJoin(SplitFrom(s, start, |s|)) == Capitalize(s[start..|s|]) + CaseByPosition(s, |s|)
  {
    assert s[start..] == s[start..|s|];
    CamelJoinSingle(s[start..|s|]);
  }

  /** The letter that ends a run of non-letters opens a new piece. */
  lemma {:induction false} RunEndOpensPiece(s: string, i: nat)
    requires i < |s| && !IsLetter(s[i])
    ensures InPiece(s, RunEnd(s, i), RunEnd(s, i))
  {
    var j := RunEnd(s, i);
    assert i <= j - 1 < j ==> !IsLetter(s[j - 1]);
  }

  /** A letter at a case boundary opens a new piece. */
  lemma {:induction false} BoundaryOpensPiece(s: string, i: nat)
    requires i < |s| && IsLetter(s[i]) && CaseBoundary(s, i)
    ensures InPiece(s, i, i + 1)
  {
  }

  /** Any other letter extends the current piece. */
  lemma {:induction false} LetterExtendsPiece(s: string, start: nat, i: nat)
    requires InPiece(s, start, i) && i < |s| && IsLetter(s[i]) && !CaseBoundary(s, i)
    ensures InPiece(s, start, i + 1)
  {
  }

  lemma {:induction false} CaseAfterRun(s: string, start: nat, i: nat)
    requires start <= i < |s| && !IsLetter(s[i])
    requires CamelJoin(SplitFrom(s, RunEnd(s, i), RunEnd(s, i))) ==
               Capitalize(s[RunEnd(s, i)..RunEnd(s, i)]) + CaseByPosition(s, RunEnd(s, i))
    ensures CamelJoin(SplitFrom(s, start, i)) == Capitalize(s[start..i]) + CaseByPosition(s, i)
  {
    JoinAtRun(s, start, i);
    EmptyPiece(s, RunEnd(s, i));
    RunSkipped(s, i);
  }

  lemma {:induction false} EmptyPiece(s: string, j: nat)
    requires j <= |s|
    ensures Capitalize(s[j..j]) + CaseByPosition(s, j) == CaseByPosition(s, j)
  {
    assert s[j..j] == [];
  }

  lemma {:induction false} RunSkipped(s: string, i: nat)
    requires i < |s| && !IsLetter(s[i])
    ensures CaseByPosition(s, RunEnd(s, i)) == CaseByPosition(s, i)
  {
    CaseByPositionSkipsRun(s, i, RunEnd(s, i));
  }

  lemma {:induction false} JoinAtRun(s: string, start: nat, i: nat)
    requires start <= i < |s| && !IsLetter(s[i])
    ensures CamelJoin(SplitFrom(s, start, i)) ==
              Capitalize(s[start..i]) + CamelJoin(SplitFrom(s, RunEnd(s, i), RunEnd(s, i)))
  {
    var j := RunEnd(s, i);
    assert SplitFrom(s, start, i) == [s[start..i]] + SplitFrom(s, j, j);
    CamelJoinCons(s[start..i], SplitFrom(s, j, j));
  }

  /** A letter after a case boundary opens a new piece and is upper-cased. */
  lemma {:induction false} CaseAfterBoundary(s: string, start: nat, i: nat)
    requires start <= i < |s| && IsLetter(s[i]) && CaseBoundary(s, i)
    requires CamelJoin(SplitFrom(s, i, i + 1)) == Capitalize(s[i..i + 1]) + CaseByPosition(s, i + 1)
    ensures CamelJoin(SplitFrom(s, start, i)) == Capitalize(s[start..i]) + CaseByPosition(s, i)
  {
    JoinAtBoundary(s, start, i);
    UpperCaseAtTokenStart(s, i);
  }

  lemma {:induction false} JoinAtBoundary(s: string, start: nat, i: nat)
    requires start <= i < |s| && IsLetter(s[i]) && CaseBoundary(s, i)
    ensures CamelJoin(SplitFrom(s, start, i)) == Capitalize(s[start..i]) + CamelJoin(SplitFrom(s, i, i + 1))
  {
    assert SplitFrom(s, start, i) == [s[start..i]] + SplitFrom(s, i, i + 1);
    CamelJoinCons(s[start..i], SplitFrom(s, i, i + 1));
  }

  /** A letter that begins a token is upper-cased. */
  lemma {:induction false} UpperCaseAtTokenStart(s: string, i: nat)
    requires i < |s| && IsLetter(s[i]) && StartsToken(s, i)
    ensures Capitalize(s[i..i + 1]) + CaseByPosition(s, i + 1) == CaseByPosition(s, i)
  {
    assert s[i..i + 1] == [s[i]];
  }

  /** A letter that extends the current piece is upper-cased when it opens it, lower-cased otherwise. */
  lemma {:induction false} CaseAfterLetter(s: string, start: nat, i: nat)
    requires InPiece(s, start, i) && i < |s| && IsLetter(s[i]) && !CaseBoundary(s, i)
    requires CamelJoin(SplitFrom(s, start, i + 1)) == Capitalize(s[start..i + 1]) + CaseByPosition(s, i + 1)
    ensures CamelJoin(SplitFrom(s, start, i)) == Capitalize(s[start..i]) + CaseByPosition(s, i)
  {
    if start < i {
      assert IsLetter(s[i - 1]);
      CaseInsidePiece(s, start, i);
    } else {
      CaseAtPieceStart(s, i);
    }
  }

  /** A letter inside a piece is lower-cased. */
  lemma {:induction false} CaseInsidePiece(s: string, start: nat, i: nat)
    requires start < i < |s| && IsLetter(s[i - 1]) && IsLetter(s[i]) && !CaseBoundary(s, i)
    requires CamelJoin(SplitFrom(s, start, i + 1)) == Capitalize(s[start..i + 1]) + CaseByPosition(s, i + 1)
    ensures CamelJoin(SplitFrom(s, start, i)) == Capitalize(s[start..i]) + CaseByPosition(s, i)
  {
    JoinSkipsLetter(s, start, i);
    LowerCaseInPiece(s, start, i);
  }

  lemma {:induction false} JoinSkipsLetter(s: string, start: nat, i: nat)
    requires start <= i < |s| && IsLetter(s[i]) && !CaseBoundary(s, i)
    ensures CamelJoin(SplitFrom(s, start, i)) == CamelJoin(SplitFrom(s, start, i + 1))
  {
    SplitFromSkipsLetters(s, start, i, i + 1);
  }

  lemma {:induction false} LowerCaseInPiece(s: string, start: nat, i: nat)
    requires start < i < |s| && IsLetter(s[i - 1]) && IsLetter(s[i]) && !CaseBoundary(s, i)
    ensures Capitalize(s[start..i + 1]) + CaseByPosition(s, i + 1) == Capitalize(s[start..i]) + CaseByPosition(s, i)
  {
    SliceSnoc(s, start, i);
    CapitalizeSnoc(s[start..i], s[i]);
    assert CaseByPosition(s, i) == [ToLower(s[i])] + CaseByPosition(s, i + 1);
  }

  /** The letter that opens a piece is upper-cased. */
  lemma {:induction false} CaseAtPieceStart(s: string, i: nat)
    requires i < |s| && IsLetter(s[i]) && !CaseBoundary(s, i) && StartsToken(s, i)
    requires CamelJoin(SplitFrom(s, i, i + 1)) == Capitalize(s[i..i + 1]) + CaseByPosition(s, i + 1)
    ensures CamelJoin(SplitFrom(s, i, i)) == Capitalize(s[i..i]) + CaseByPosition(s, i)
  {
    JoinSkipsLetter(s, i, i);
    UpperCaseAtTokenStart(s, i);
    EmptyPiece(s, i);
  }

  /**
   * The camel-case text is the source's letters in order, a letter upper-cased exactly when it
   * begins a token (it is the first character, follows a non-letter, or is upper-case right after a
   * lower-case letter) and lower-cased otherwise.
   */
  lemma {:induction false} CaseOfEachLetter(s: string)
    ensures ToCamelCaseSpec(s) == CaseByPosition(s, 0)
  {
    SplitFromCase(s, 0, 0);
    EmptyPiece(s, 0);
    JoinOfSplit(s);
  }

  /** Dropping trailing empty pieces, or not splitting at all, leaves the joined text unchanged. */
  lemma {:induction false} JoinOfSplit(s: string)
    ensures ToCamelCaseSpec(s) == CamelJoin(SplitFrom(s, 0, 0))
  {
    if HasSeparator(s) {
      CamelJoinDropTrailingEmpty(SplitFrom(s, 0, 0));
    } else {
      UnsplitText(s);
    }
  }

  /** Text the pattern never matches is a single piece. */
  lemma {:induction false} UnsplitText(s: string)
    requires !HasSeparator(s)
    ensures SplitFrom(s, 0, 0) == [s]
  {
    SplitFromSkipsLetters(s, 0, 0, |s|);
    assert s[0..] == s;
  }

  /** An upper-case letter after a lower-case one starts a word: "fooBar" becomes "FooBar". */
  lemma {:induction false} LowerThenUpper()
    ensures ToCamelCaseSpec("fooBar") == "FooBar"
  {
    CaseOfEachLetter("fooBar");
    FooBarByPosition();
  }

  /** In "fooBar" the first letter and the 'B' after a lower-case letter begin tokens. */
  lemma {:induction false} FooBarByPosition()
    ensures CaseByPosition("fooBar", 0) == "FooBar"
  {
    var s := "fooBar";
    assert CaseByPosition(s, 5) == ['r'];
    assert CaseByPosition(s, 4) == ['a'] + CaseByPosition(s, 5);
    assert CaseByPosition(s, 3) == ['B'] + CaseByPosition(s, 4) by {
      assert CaseBoundary(s, 3);
    }
    assert CaseByPosition(s, 2) == ['o'] + CaseByPosition(s, 3);
    assert CaseByPosition(s, 1) == ['o'] + CaseByPosition(s, 2);
  }

  // ---------------------------------------------------------------------------------------------
  // Words and separators.

  /** The scan passes over letters that start no new piece. */
  lemma {:induction false} SplitFromSkipsLetters(s: string, start: nat, i: nat, j: nat)
    requires start <= i <= j <= |s|
    requires forall k :: i <= k < j ==> IsLetter(s[k]) && !CaseBoundary(s, k)
    ensures SplitFrom(s, start, i) == SplitFrom(s, start, j)
    decreases j - i
  {
    if i < j {
      SplitFromSkipsLetters(s, start, i + 1, j);
    }
  }

  /** A single word is one token: its first letter upper-cased and the rest lower-cased. */
  lemma {:induction false} SingleWord(w: string)
    requires Word(w)
    ensures ToCamelCaseSpec(w) == Capitalize(w)
  {
    assert !HasSeparator(w);
    assert Split(w) == [w];
    CamelJoinSingle(w);
  }

  /** The scan passes over a word that does not follow a lower-case letter. */
  lemma {:induction false} SplitFromOverWord(s: string, start: nat, j: nat)
    requires start <= j <= |s| && Word(s[start..j])
    requires start > 0 ==> !IsLower(s[start - 1])
    ensures SplitFrom(s, start, start) == SplitFrom(s, start, j)
  {
    forall k | start <= k < j
      ensures IsLetter(s[k]) && !CaseBoundary(s, k)
    {
      assert s[k] == s[start..j][k - start];
      if k > start {
        assert s[k - 1] == s[start..j][k - start - 1];
        assert !CaseBoundary(s[start..j], k - start);
      }
    }
    SplitFromSkipsLetters(s, start, start, j);
  }

  /** Two words joined by a run of non-letters are split into exactly those two words. */
  lemma {:induction false} SplitSeparatedWords(a: string, sep: string, b: string)
    requires Word(a) && Word(b) && a != [] && b != [] && sep != []
    requires forall k :: 0 <= k < |sep| ==> !IsLetter(sep[k])
    ensures HasSeparator(a + sep + b)
    ensures SplitFrom(a + sep + b, 0, 0) == [a, b]
  {
    var s := a + sep + b;
    var m := |a| + |sep|;
    assert s[|a|] == sep[0];
    assert s[0..|a|] == a;
    SplitFromOverWord(s, 0, |a|);
    assert forall k :: |a| <= k < m ==> s[k] == sep[k - |a|];
    assert s[m] == b[0];
    RunEndOfRun(s, |a|, m);
    assert s[m..|s|] == b;
    assert s[m - 1] == sep[|sep| - 1];
    SplitFromOverWord(s, m, |s|);
    assert SplitFrom(s, m, |s|) == [b];
  }

  /** Two words joined by a run of non-letters become the two capitalized words, back to back. */
  lemma {:induction false} SeparatedWords(a: string, sep: string, b: string)
    requires Word(a) && Word(b) && a != [] && b != [] && sep != []
    requires forall k :: 0 <= k < |sep| ==> !IsLetter(sep[k])
    ensures ToCamelCaseSpec(a + sep + b) == Capitalize(a) + Capitalize(b)
  {
    SplitSeparatedWords(a, sep, b);
    assert DropTrailingEmpty([a, b]) == [a, b];
    CamelJoinPair(a, b);
  }

  /** Two tokens join to their capitalized forms, back to back. */
  lemma {:induction false} CamelJoinPair(a: string, b: string)
    ensures CamelJoin([a, b]) == Capitalize(a) + Capitalize(b)
  {
    CamelJoinSingle(a);
    assert [a, b][..1] == [a];
  }

  /** One token joins to its capitalized form. */
  lemma {:induction false} CamelJoinSingle(a: string)
    ensures CamelJoin([a]) == Capitalize(a)
  {
    assert [a][..0] == [];
  }

  /** The greedy run ends at the first letter. */
  lemma {:induction false} RunEndOfRun(s: string, i: nat, j: nat)
    requires i <= j <= |s|
    requires forall k :: i <= k < j ==> !IsLetter(s[k])
    requires j < |s| ==> IsLetter(s[j])
    ensures RunEnd(s, i) == j
    decreases j - i
  {
    if i < j {
      RunEndOfRun(s, i + 1, j);
    }
  }
}
