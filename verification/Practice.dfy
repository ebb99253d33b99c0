/** Practice: the questions of a generated test, and which of them can be marked.
    Models apps/api/internal/ai/grammar_content.go (UsablePractice and what it calls). */
module Practice {
  import opened Text

  const MULTIPLE_CHOICE := "multiple_choice"
  const FILL_BLANK := "fill_blank"
  const BLANK := "___"

  datatype Question = Question(
    kind: string,
    prompt: string,
    options: seq<string>,
    answerIndex: int,
    accepted: seq<string>,
    hint: string,
    explanation: string,
    targetRule: string)
  {
    predicate IsFillBlank() { kind == FILL_BLANK }
  }

  // ---- answers and gaps ------------------------------------------------------------------

  /** How two answers are compared: case, spacing and final punctuation make no difference. */
  function NormalizeChoice(s: string): string {
    TrimRightAny(ToLower(Join(Fields(s), " ")), ".!?,;:")
  }

  // How many underscores s begins with.
  function RunLength(s: string): (n: nat)
    ensures n <= |s|
    ensures forall i | 0 <= i < n :: s[i] == '_'
    ensures n < |s| ==> s[n] != '_'
  {
    if s == "" || s[0] != '_' then 0 else 1 + RunLength(s[1..])
  }

  /** Replaces every maximal run of three or more underscores by one gap marker. */
  function CollapseGaps(s: string): string
    decreases |s|
  {
    if s == "" then ""
    else if s[0] != '_' then [s[0]] + CollapseGaps(s[1..])
    else var n := RunLength(s); (if n >= 3 then BLANK else s[..n]) + CollapseGaps(s[n..])
  }

  /** Non-overlapping occurrences of the gap marker, counted from the left. */
  function GapCount(s: string): nat
    decreases |s|
  {
    if |s| < 3 then 0
    else if s[..3] == BLANK then 1 + GapCount(s[3..])
    else GapCount(s[1..])
  }

  lemma {:induction false} RunStops(s: string, n: nat)
    requires n <= |s|
    requires forall i | 0 <= i < n :: s[i] == '_'
    requires n < |s| ==> s[n] != '_'
    ensures RunLength(s) == n
  {
    if n > 0 { RunStops(s[1..], n - 1); }
  }

  // The first and the last character survive the collapse.
  lemma {:induction false} CollapseEnds(s: string)
    requires s != ""
    ensures var r := CollapseGaps(s); r != "" && r[0] == s[0] && r[|r| - 1] == s[|s| - 1]
    decreases |s|
  {
    var n := if s[0] == '_' then RunLength(s) else 1;
    assert n > 0;
    var rest := CollapseGaps(s[n..]);
    if n < |s| {
      CollapseEnds(s[n..]);
      assert s[n..][|s| - n - 1] == s[|s| - 1];
    }
  }

  lemma CollapseRun(head: string, rest: string)
    requires 0 < |head| <= 3 && (forall c | c in head :: c == '_')
    requires rest != "" ==> rest[0] != '_'
    ensures CollapseGaps(head + rest) == head + CollapseGaps(rest)
  {
    var s := head + rest;
    forall i | 0 <= i < |head| ensures s[i] == '_' { assert head[i] in head; }
    RunStops(s, |head|);
    assert s[|head|..] == rest && s[..|head|] == head;
    assert |head| == 3 ==> head == BLANK;
  }

  lemma {:induction false} CollapseIsIdempotent(s: string)
    ensures CollapseGaps(CollapseGaps(s)) == CollapseGaps(s)
    decreases |s|
  {
    if s == "" {
    } else if s[0] != '_' {
      CollapseIsIdempotent(s[1..]);
      assert ([s[0]] + CollapseGaps(s[1..]))[1..] == CollapseGaps(s[1..]);
    } else {
      var n := RunLength(s);
      CollapseIsIdempotent(s[n..]);
      if s[n..] != "" { CollapseEnds(s[n..]); }
      CollapseRun(if n >= 3 then BLANK else s[..n], CollapseGaps(s[n..]));
    }
  }

  // ---- which questions can be marked -----------------------------------------------------

  function Keys(options: seq<string>): (keys: seq<string>)
    ensures |keys| == |options|
  {
    seq(|options|, i requires 0 <= i < |options| => NormalizeChoice(options[i]))
  }

  predicate AllDistinct(keys: seq<string>) {
    && "" !in keys
    && (forall i, j | 0 <= i < j < |keys| :: keys[i] != keys[j])
  }

  predicate OptionsDistinct(options: seq<string>) {
    AllDistinct(Keys(options))
  }

  /** What the marker needs: a gap with a key, or a choice whose key points at one of its options. */
  predicate Markable(q: Question) {
    && q.prompt != ""
    && if q.IsFillBlank() then
         && GapCount(q.prompt) == 1
         && q.accepted != []
         && (forall a | a in q.accepted :: Clean(a))
       else
         && q.kind == MULTIPLE_CHOICE
         && |q.options| >= 2 && 0 <= q.answerIndex < |q.options|
         && OptionsDistinct(q.options)
  }

  // Each kind carries its own fields and nothing of the other's.
  predicate Tidy(q: Question) {
    && Trimmed(q.prompt) && CollapseGaps(q.prompt) == q.prompt
    && if q.IsFillBlank() then q.options == [] && q.answerIndex == -1 && Trimmed(q.hint)
       else q.accepted == [] && q.hint == ""
  }

  function TrimAll(accepted: seq<string>): seq<string> {
    if accepted == [] then []
    else
      var n := |accepted| - 1;
      var a := Trim(accepted[n]);
      TrimAll(accepted[..n]) + if a != "" then [a] else []
  }

  function Tidied(q: Question): Question {
    var prompt := CollapseGaps(Trim(q.prompt));
    if q.IsFillBlank() then
      q.(prompt := prompt, accepted := TrimAll(q.accepted), options := [], answerIndex := -1, hint := Trim(q.hint))
    else
      q.(prompt := prompt, kind := MULTIPLE_CHOICE, accepted := [], hint := "")
  }

  /** The questions that can be marked once tidied, in order. */
  function Usable(questions: seq<Question>): seq<Question> {
    if questions == [] then []
    else
      var n := |questions| - 1;
      Usable(questions[..n]) + Kept(questions[n])
  }

  // Whether q is kept is asked before its kind is settled, as the loop does.
  function Kept(q: Question): seq<Question> {
    var t := Tidied(q);
    if Markable(t) then [t] else []
  }

  predicate Clean(a: string) { a != "" && Trimmed(a) }

  lemma {:induction false} TrimAllIsClean(accepted: seq<string>)
    ensures forall a | a in TrimAll(accepted) :: Clean(a)
  {
    if accepted != [] {
      TrimAllIsClean(accepted[..|accepted| - 1]);
      TrimIsTrimmed(accepted[|accepted| - 1]);
    }
  }

  lemma {:induction false} TrimAllKeepsClean(accepted: seq<string>)
    requires forall a | a in accepted :: Clean(a)
    ensures TrimAll(accepted) == accepted
  {
    if accepted != [] {
      var n := |accepted| - 1;
      TrimAllKeepsClean(accepted[..n]);
      TrimIsTrimmed(accepted[n]);
      assert Clean(accepted[n]);
    }
  }

  lemma PromptIsSettled(p: string)
    ensures var r := CollapseGaps(Trim(p)); Trimmed(r) && CollapseGaps(r) == r && CollapseGaps(Trim(r)) == r
  {
    var t := Trim(p);
    TrimIsTrimmed(p);
    CollapseIsIdempotent(t);
    if t != "" { CollapseEnds(t); }
    TrimIsTrimmed(CollapseGaps(t));
  }

  /** Tidying settles a question: it is tidy, and tidying it again changes nothing. */
  lemma TidiedIsTidy(q: Question)
    ensures Tidy(Tidied(q)) && Tidied(Tidied(q)) == Tidied(q)
  {
    PromptIsSettled(q.prompt);
    TrimAllIsClean(q.accepted);
    TrimAllKeepsClean(TrimAll(q.accepted));
    TrimIsTrimmed(q.hint);
    TrimIsTrimmed(Trim(q.hint));
  }

  /** Every question the filter lets through can be marked, and carries one kind's fields only. */
  lemma {:induction false} UsableIsMarkable(questions: seq<Question>)
    ensures forall q | q in Usable(questions) :: Markable(q) && Tidy(q)
  {
    if questions != [] {
      var n := |questions| - 1;
      UsableIsMarkable(questions[..n]);
      TidiedIsTidy(questions[n]);
    }
  }

  // Filtering q keeps it, unchanged.
  predicate Settled(q: Question) { Kept(q) == [q] }

  lemma {:induction false} UsableKeeps(questions: seq<Question>)
    requires forall i | 0 <= i < |questions| :: Settled(questions[i])
    ensures Usable(questions) == questions
  {
    hide Kept;
    if questions != [] {
      var n := |questions| - 1;
      UsableKeeps(questions[..n]);
      assert Settled(questions[n]);
      assert questions == questions[..n] + [questions[n]];
    }
  }

  lemma {:induction false} UsableIsSettled(questions: seq<Question>)
    ensures forall i | 0 <= i < |Usable(questions)| :: Settled(Usable(questions)[i])
  {
    if questions != [] {
      UsableIsSettled(questions[..|questions| - 1]);
      TidiedIsTidy(questions[|questions| - 1]);
    }
  }

  /** Filtering what was filtered keeps all of it, unchanged. */
  lemma UsableIsIdempotent(questions: seq<Question>)
    ensures Usable(Usable(questions)) == Usable(questions)
  {
    UsableIsSettled(questions);
    UsableKeeps(Usable(questions));
  }

  // ---- the loops -------------------------------------------------------------------------

  method DistinctOptions(options: seq<string>) returns (distinct: bool)
    ensures distinct <==> OptionsDistinct(options)
  {
    hide NormalizeChoice;
    ghost var keys := Keys(options);
    var seen: set<string> := {};
    for i := 0 to |options|
      invariant forall j | 0 <= j < i :: keys[j] in seen && keys[j] != ""
      invariant forall k | k in seen :: k in keys[..i]
      invariant forall j, k | 0 <= j < k < i :: keys[j] != keys[k]
    {
      var key := NormalizeChoice(options[i]);
      assert key == keys[i];
      if key == "" || key in seen {
        return false;
      }
      seen := seen + {key};
    }
    return true;
  }

  method TrimAccepted(accepted: seq<string>) returns (kept: seq<string>)
    ensures kept == TrimAll(accepted)
  {
    kept := [];
    for i := 0 to |accepted|
      invariant kept == TrimAll(accepted[..i])
    {
      assert accepted[..i + 1][..i] == accepted[..i];
      var a := Trim(accepted[i]);
      if a != "" {
        kept := kept + [a];
      }
    }
    assert accepted[..|accepted|] == accepted;
  }

  method TidyQuestion(question: Question) returns (ok: bool, q: Question)
    ensures Kept(question) == if ok then [q] else []
  {
    q := question.(prompt := CollapseGaps(Trim(question.prompt)));
    TrimAllIsClean(question.accepted);
    if q.prompt == "" {
      return false, q;
    }
    if q.IsFillBlank() {
      if GapCount(q.prompt) != 1 {
        return false, q;
      }
      var accepted := TrimAccepted(q.accepted);
      if accepted == [] {
        return false, q;
      }
      return true, q.(accepted := accepted, options := [], answerIndex := -1, hint := Trim(q.hint));
    }
    if |q.options| < 2 || q.answerIndex < 0 || q.answerIndex >= |q.options| {
      return false, q;
    }
    ok := DistinctOptions(q.options);
    q := q.(kind := MULTIPLE_CHOICE, accepted := [], hint := "");
  }

  /** Compacts the slice it is given: question i is read after at most i writes, so no write
      overtakes a read, and what lies past the kept questions is left as it was. */
  method UsablePractice(a: array<Question>) returns (n: nat)
    modifies a
    ensures n <= a.Length
    ensures a[..n] == Usable(old(a[..]))
    ensures a[n..] == old(a[n..])
  {
    hide Kept;
    ghost var was := a[..];
    n := 0;
    for i := 0 to a.Length
      invariant n <= i
      invariant a[..n] == Usable(was[..i])
      invariant forall j | n <= j < a.Length :: a[j] == was[j]
    {
      assert was[..i + 1][..i] == was[..i];
      var ok, q := TidyQuestion(a[i]);
      if ok {
        a[n] := q;
        n := n + 1;
        assert a[..n] == a[..n - 1] + [q];
      }
    }
    assert was[..a.Length] == was;
  }
}
