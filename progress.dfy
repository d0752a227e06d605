/** The deploy progress classifier: one line of `aws cloudformation deploy`
    standard output is normalised and mapped to one of six integer progress codes. */
module DeployProgress {

  // The progress codes, numbered in declaration order as by Go's `iota`.
  const ProgressUnmapped: int := 0
  const ProgressNoChangeset: int := 1
  const ProgressAwaitingChangesetCreation: int := 2
  const ProgressAwaitingChangesetCompletion: int := 3
  const ProgressStackCompletion: int := 4
  const ProgressEOF: int := 5

  // The recognised phrases, in their normalised (lower-case, trimmed) form.
  const ChangesetCreationPhrase: string := "waiting for changeset to be created"
  const ChangesetCompletionPhrase: string := "waiting for stack create/update to complete"
  const NoChangesPhrase: string := "no changes to deploy"
  const StackCompletionPhrase: string := "successfully created/updated stack"

  /** Reference table of the recognised phrases and the code each one yields. */
  const Phrases: map<string, int> := map[
    ChangesetCreationPhrase := ProgressAwaitingChangesetCreation,
    ChangesetCompletionPhrase := ProgressAwaitingChangesetCompletion,
    NoChangesPhrase := ProgressNoChangeset,
    StackCompletionPhrase := ProgressStackCompletion
  ]

  /** ASCII lower-casing of one character. */
  function LowerChar(c: char): char {
    if 'A' <= c <= 'Z' then (c as int + 32) as char else c
  }

  /** Lower-casing of a line, character by character. */
  function Lower(s: string): string {
    seq(|s|, i requires 0 <= i < |s| => LowerChar(s[i]))
  }

  /** The cut set `" ."` handed to `strings.Trim`. */
  predicate IsPad(c: char) {
    c == ' ' || c == '.'
  }

  predicate AllPad(s: string) {
    forall i :: 0 <= i < |s| ==> IsPad(s[i])
  }

  function TrimLeft(s: string): string {
    if |s| > 0 && IsPad(s[0]) then TrimLeft(s[1..]) else s
  }

  function TrimRight(s: string): string {
    if |s| > 0 && IsPad(s[|s| - 1]) then TrimRight(s[..|s| - 1]) else s
  }

  /** `strings.Trim(s, " .")`: drop every leading and trailing space or period. */
  function Trim(s: string): string {
    TrimRight(TrimLeft(s))
  }

  /** The normalisation the classifier applies before matching. */
  function Normalize(line: string): string {
    Trim(Lower(line))
  }

  /** Maps one stdout line to its progress code. The classifier is total and
      never yields the end-of-stream code, which only the stdout reader sends. */
  function Progress(line: string): (p: int)
    ensures ProgressUnmapped <= p <= ProgressStackCompletion
    ensures p != ProgressEOF
  {
    var l := Normalize(line);
    if l == ChangesetCreationPhrase then ProgressAwaitingChangesetCreation
    else if l == ChangesetCompletionPhrase then ProgressAwaitingChangesetCompletion
    else if l == NoChangesPhrase then ProgressNoChangeset
    else if l == StackCompletionPhrase then ProgressStackCompletion
    else ProgressUnmapped
  }

  // ---------------------------------------------------------------------------
  // Facts about trimming

  lemma {:induction false} TrimLeftPadded(p: string, s: string)
    requires AllPad(p)
    ensures TrimLeft(p + s) == TrimLeft(s)
  {
    if p != [] {
      assert (p + s)[1..] == p[1..] + s;
      TrimLeftPadded(p[1..], s);
    } else {
      assert p + s == s;
    }
  }

  lemma {:induction false} TrimRightPadded(s: string, q: string)
    requires AllPad(q)
    ensures TrimRight(s + q) == TrimRight(s)
  {
    if q != [] {
      assert (s + q)[..|s + q| - 1] == s + q[..|q| - 1];
      TrimRightPadded(s, q[..|q| - 1]);
    } else {
      assert s + q == s;
    }
  }

  /** Trimming the left of `x + q` stops inside `x` unless `x` is all padding. */
  lemma {:induction false} TrimLeftAppend(x: string, q: string)
    requires AllPad(q)
    ensures TrimLeft(x) == [] ==> TrimLeft(x + q) == []
    ensures TrimLeft(x) != [] ==> TrimLeft(x + q) == TrimLeft(x) + q
  {
    if x == [] {
      assert x + q == q;
      TrimLeftPadded(q, []);
      assert q + [] == q;
    } else if IsPad(x[0]) {
      assert (x + q)[1..] == x[1..] + q;
      TrimLeftAppend(x[1..], q);
    }
  }

  /** `TrimLeft(s)` is the suffix of `s` after a run of padding. */
  lemma {:induction false} TrimLeftShape(s: string)
    ensures |TrimLeft(s)| <= |s|
    ensures TrimLeft(s) == s[|s| - |TrimLeft(s)|..]
    ensures AllPad(s[..|s| - |TrimLeft(s)|])
    ensures TrimLeft(s) == [] || !IsPad(TrimLeft(s)[0])
  {
    if |s| > 0 && IsPad(s[0]) {
      TrimLeftShape(s[1..]);
      var k := |s| - |TrimLeft(s)|;
      assert s[..k] == [s[0]] + s[1..][..k - 1];
    }
  }

  /** `TrimRight(s)` is the prefix of `s` before a run of padding. */
  lemma {:induction false} TrimRightShape(s: string)
    ensures |TrimRight(s)| <= |s|
    ensures TrimRight(s) == s[..|TrimRight(s)|]
    ensures AllPad(s[|TrimRight(s)|..])
    ensures TrimRight(s) == [] || !IsPad(TrimRight(s)[|TrimRight(s)| - 1])
  {
    if |s| > 0 && IsPad(s[|s| - 1]) {
      var init := s[..|s| - 1];
      TrimRightShape(init);
      var k := |TrimRight(s)|;
      assert s[k..] == init[k..] + [s[|s| - 1]];
    }
  }

  /** `Trim` removes exactly the leading and trailing padding, as `strings.Trim`
      promises: the result is a slice of the input whose ends are not padding,
      and everything cut away on either side is padding. */
  lemma TrimExact(s: string)
    ensures var r := Trim(s);
      exists i :: 0 <= i <= |s| - |r| && r == s[i..i + |r|]
        && AllPad(s[..i]) && AllPad(s[i + |r|..])
        && (r == [] || (!IsPad(r[0]) && !IsPad(r[|r| - 1])))
  {
    var u := TrimLeft(s);
    var r := TrimRight(u);
    TrimLeftShape(s);
    TrimRightShape(u);
    var i := |s| - |u|;
    assert r == s[i..i + |r|];
    assert s[i + |r|..] == u[|r|..];
  }

  /** Trimming is idempotent. */
  lemma TrimIdempotent(s: string)
    ensures Trim(Trim(s)) == Trim(s)
  {
    var u := TrimLeft(s);
    var v := TrimRight(u);
    TrimLeftShape(s);
    TrimRightShape(u);
    assert v == [] || v[0] == u[0];
    assert TrimLeft(v) == v;
  }

  // ---------------------------------------------------------------------------
  // Facts about lower-casing

  lemma LowerConcat(a: string, b: string)
    ensures Lower(a + b) == Lower(a) + Lower(b)
  {
    assert forall i :: 0 <= i < |a + b| ==> Lower(a + b)[i] == (Lower(a) + Lower(b))[i];
  }

  predicate LowerFixed(s: string) {
    forall i :: 0 <= i < |s| ==> LowerChar(s[i]) == s[i]
  }

  // ---------------------------------------------------------------------------
  // Properties of the normalisation and the classifier

  /** Normalising an already normalised line changes nothing. */
  lemma NormalizeIdempotent(line: string)
    ensures Normalize(Normalize(line)) == Normalize(line)
  {
    var y := Lower(line);
    assert LowerFixed(y);
    var u := TrimLeft(y);
    TrimLeftShape(y);
    var v := TrimRight(u);
    TrimRightShape(u);
    assert v == y[|y| - |u|..][..|v|];
    assert LowerFixed(v);
    assert Lower(v) == v;
    TrimIdempotent(y);
  }

  /** Padding with spaces and periods at either end never changes the code. */
  lemma ProgressIgnoresPadding(pre: string, line: string, post: string)
    requires AllPad(pre) && AllPad(post)
    ensures Normalize(pre + line + post) == Normalize(line)
    ensures Progress(pre + line + post) == Progress(line)
  {
    LowerConcat(pre + line, post);
    LowerConcat(pre, line);
    var p, x, q := Lower(pre), Lower(line), Lower(post);
    assert AllPad(p) && AllPad(q);
    assert p + x + q == p + (x + q);
    TrimLeftPadded(p, x + q);
    TrimLeftAppend(x, q);
    if TrimLeft(x) != [] {
      TrimRightPadded(TrimLeft(x), q);
    }
  }

  /** Upper-case ASCII letters never change the code. */
  lemma ProgressIgnoresCase(line: string)
    ensures Progress(Lower(line)) == Progress(line)
  {
    assert Lower(Lower(line)) == Lower(line);
  }

  /** The switch in the classifier agrees with the phrase table: a line yields the
      table's code iff its normalisation is in the table, and Unmapped otherwise. */
  lemma ProgressMatchesTable(line: string)
    ensures Normalize(line) in Phrases ==> Progress(line) == Phrases[Normalize(line)]
    ensures Normalize(line) !in Phrases <==> Progress(line) == ProgressUnmapped
  {
  }

  /** No recognised phrase starts or ends with a space or period. */
  lemma PhraseUnpadded(l: string)
    requires l in Phrases
    ensures TrimLeft(l) == l && TrimRight(l) == l
  {
    assert |l| > 0 && !IsPad(l[0]) && !IsPad(l[|l| - 1]);
  }

  /** Each phrase, in any ASCII letter case and surrounded by any spaces and
      periods, yields exactly its code. */
  lemma ProgressRecognisesPhrase(pre: string, phrase: string, post: string)
    requires AllPad(pre) && AllPad(post)
    requires Lower(phrase) in Phrases
    ensures Progress(pre + phrase + post) == Phrases[Lower(phrase)]
  {
    ProgressIgnoresPadding(pre, phrase, post);
    PhraseUnpadded(Lower(phrase));
    ProgressMatchesTable(phrase);
  }

  /** The unit test's line is unmapped. */
  lemma UnmappedExample()
    ensures Progress("deploy progress output is unmapped") == ProgressUnmapped
  {
    var l := "deploy progress output is unmapped";
    assert Lower(l) == l;
    assert TrimLeft(l) == l;
    assert TrimRight(l) == l;
  }
}
