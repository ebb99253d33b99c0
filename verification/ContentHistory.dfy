/** ContentHistory: a content item and the log of what it has said - created, edited, moved through the
    workflow and restored.

    Models createContent, updateContent, contentChanged, setContentStatus and restoreContentVersion in
    apps/api/internal/admin/content.go for one item; statements about other items touch other rows.
    A body is a JSON value; `norm` is what normalizeJSON makes of it, and two bodies count as the same
    when their normal forms are equal. */
module ContentHistory {
  import opened Options
  import opened Text

  type Body = int
  type Norm = Body -> Body

  /** What learners read. */
  datatype Wording = Wording(title: string, body: Body, difficulty: int, tags: seq<string>)

  datatype Item = Item(text: Wording, status: string, version: nat)

  /** A row of the log. */
  datatype Snapshot = Snapshot(version: nat, text: Wording, status: string, note: string)

  datatype Content = Content(item: Option<Item>, log: seq<Snapshot>)

  datatype Edit = Edit(
    title: Option<string>,
    body: Option<Body>,
    difficulty: Option<int>,
    tags: Option<seq<string>>,
    note: Option<string>)

  // Where the handler breaks: before its first statement, before its second, or once all is written.
  datatype Fault = NoFault | AtStart | Between | AtEnd

  datatype Outcome = Done | NotFound | Conflict | Failed

  datatype Step =
    | Create(title: string, body: Option<Body>, difficulty: Option<int>, tags: Option<seq<string>>, fault: Fault)
    | Update(edit: Edit, fault: Fault)
    | SetStatus(status: string, answerable: bool, fault: Fault)  // answerable: publishing it would not be a dead end
    | Restore(version: nat, fault: Fault)

  const EMPTY_BODY: Body := 0

  /** Whether an edit touches anything a learner would notice. */
  predicate Changed(t: Wording, e: Edit, norm: Norm) {
    || (e.title.Some? && e.title.value != t.title)
    || (e.difficulty.Some? && e.difficulty.value != t.difficulty)
    || (e.body.Some? && norm(e.body.value) != norm(t.body))
    || (e.tags.Some? && e.tags.value != t.tags)
  }

  function Edited(t: Wording, e: Edit): Wording {
    Wording(e.title.GetOr(t.title), e.body.GetOr(t.body), e.difficulty.GetOr(t.difficulty), e.tags.GetOr(t.tags))
  }

  function SnapshotOf(i: Item, note: string): Snapshot { Snapshot(i.version, i.text, i.status, note) }

  function Ended(fault: Fault): Outcome { if fault == AtEnd then Failed else Done }

  // Two statements, not in a transaction.
  function CreateItem(c: Content, title: string, body: Option<Body>, difficulty: Option<int>, tags: Option<seq<string>>,
      fault: Fault): (Content, Outcome)
  {
    if c.item.Some? then (c, Failed)  // another create makes another item
    else if fault == AtStart then (c, Failed)
    else
      var item := Item(Wording(title, body.GetOr(EMPTY_BODY), difficulty.GetOr(5), tags.GetOr([])), "draft", 1);
      if fault == Between then (Content(Some(item), c.log), Failed)
      else (Content(Some(item), c.log + [SnapshotOf(item, "Created")]), Ended(fault))
  }

  // One transaction.
  function UpdateItem(c: Content, e: Edit, norm: Norm, fault: Fault): (Content, Outcome) {
    if c.item.None? then (c, NotFound)
    else if fault == AtStart || fault == Between then (c, Failed)
    else
      var i := c.item.value;
      if Changed(i.text, e, norm) then
        var revised := Item(Edited(i.text, e), i.status, i.version + 1);
        (Content(Some(revised), c.log + [SnapshotOf(revised, e.note.GetOr(""))]), Ended(fault))
      else (Content(Some(i.(text := Edited(i.text, e))), c.log), Ended(fault))
  }

  function WithStatus(log: seq<Snapshot>, version: nat, status: string): (r: seq<Snapshot>)
    ensures |r| == |log|
    ensures forall k | 0 <= k < |log| :: r[k] == if log[k].version == version then log[k].(status := status) else log[k]
  {
    seq(|log|, k requires 0 <= k < |log| => if log[k].version == version then log[k].(status := status) else log[k])
  }

  // Two statements, not in a transaction.
  function MoveItem(c: Content, status: string, answerable: bool, fault: Fault): (Content, Outcome) {
    if c.item.None? then (c, NotFound)
    else if status == "published" && !answerable then (c, Conflict)
    else if fault == AtStart then (c, Failed)
    else
      var i := c.item.value.(status := status);
      if fault == Between then (Content(Some(i), c.log), Failed)
      else (Content(Some(i), WithStatus(c.log, i.version, status)), Ended(fault))
  }

  function Find(log: seq<Snapshot>, version: nat): Option<Snapshot> {
    if log == [] then None
    else if log[|log| - 1].version == version then Some(log[|log| - 1])
    else Find(log[..|log| - 1], version)
  }

  // One transaction.
  function RestoreItem(c: Content, version: nat, fault: Fault): (Content, Outcome) {
    if c.item.None? then (c, NotFound)
    else
      var i := c.item.value;
      if i.version == version then (c, Conflict)
      else match Find(c.log, version)
        case None => (c, NotFound)
        case Some(was) =>
          if fault == AtStart || fault == Between then (c, Failed)
          else
            var back := Item(was.text, i.status, i.version + 1);
            (Content(Some(back), c.log + [SnapshotOf(back, "Restored from version " + Decimal(version))]), Ended(fault))
  }

  function Take(c: Content, s: Step, norm: Norm): (Content, Outcome) {
    match s
    case Create(title, body, difficulty, tags, fault) => CreateItem(c, title, body, difficulty, tags, fault)
    case Update(e, fault) => UpdateItem(c, e, norm, fault)
    case SetStatus(status, answerable, fault) => MoveItem(c, status, answerable, fault)
    case Restore(version, fault) => RestoreItem(c, version, fault)
  }

  function Run(steps: seq<Step>, norm: Norm): Content {
    if steps == [] then Content(None, []) else Take(Run(steps[..|steps| - 1], norm), steps[|steps| - 1], norm).0
  }

  // ---- agreement -------------------------------------------------------------------------

  predicate SameText(a: Wording, b: Wording, norm: Norm) {
    a.title == b.title && a.difficulty == b.difficulty && a.tags == b.tags && norm(a.body) == norm(b.body)
  }

  predicate Numbered(log: seq<Snapshot>) { forall k | 0 <= k < |log| :: log[k].version == k + 1 }

  /** The log's versions are exactly 1 to the item's, and the item is its current snapshot. */
  predicate Agree(c: Content, norm: Norm) {
    match c.item
    case None => c.log == []
    case Some(i) =>
      && Numbered(c.log) && i.version == |c.log| > 0
      && SameText(i.text, c.log[|c.log| - 1].text, norm) && i.status == c.log[|c.log| - 1].status
  }

  function Exact(b: Body): Body { b }

  /** A step that breaks between two statements that are not in one transaction. */
  predicate HalfDone(c: Content, s: Step) {
    match s
    case Create(_, _, _, _, fault) => c.item.None? && fault == Between
    case SetStatus(status, answerable, fault) =>
      c.item.Some? && !(status == "published" && !answerable) && fault == Between && status != c.item.value.status
    case _ => false
  }

  /** An edit that changes the body into another with the same normal form, and nothing else. */
  predicate Unnoticed(c: Content, s: Step, norm: Norm) {
    && s.Update? && c.item.Some? && (s.fault == NoFault || s.fault == AtEnd)
    && !Changed(c.item.value.text, s.edit, norm)
    && s.edit.body.Some? && s.edit.body.value != c.item.value.text.body
  }

  lemma {:induction false} FindNumbered(log: seq<Snapshot>, version: nat)
    requires Numbered(log)
    ensures Find(log, version) == if 1 <= version <= |log| then Some(log[version - 1]) else None
  {
    if log != [] { FindNumbered(log[..|log| - 1], version); }
  }

  /** Exactly when a step leaves the item and its log in agreement. */
  lemma StepAgreesIff(c: Content, s: Step, norm: Norm)
    requires Agree(c, Exact)
    ensures Agree(Take(c, s, norm).0, Exact) <==> !HalfDone(c, s) && !Unnoticed(c, s, norm)
  {
    if s.Restore? { FindNumbered(c.log, s.version); }
  }

  /** Two bodies with one normal form: the item says the one and its current snapshot the other. */
  lemma UnnoticedEdit(c: Content, b: Body, norm: Norm)
    requires Agree(c, Exact) && c.item.Some? && b != c.item.value.text.body && norm(b) == norm(c.item.value.text.body)
    ensures var after := Take(c, Update(Edit(None, Some(b), None, None, None), NoFault), norm).0;
            && after.log == c.log && after.item.value.text.body == b != after.log[|after.log| - 1].text.body
            && !Agree(after, Exact)
  {
  }

  /** Whatever the normal form merges, the agreement holds up to normal form unless a step is half done. */
  lemma StepAgreesUpTo(c: Content, s: Step, norm: Norm)
    requires Agree(c, norm)
    ensures Agree(Take(c, s, norm).0, norm) <==> !HalfDone(c, s)
  {
    if s.Restore? { FindNumbered(c.log, s.version); }
  }

  predicate NeverHalfDone(steps: seq<Step>, norm: Norm) {
    forall n | 0 <= n < |steps| :: !HalfDone(Run(steps[..n], norm), steps[n])
  }

  predicate NeverUnnoticed(steps: seq<Step>, norm: Norm) {
    forall n | 0 <= n < |steps| :: !Unnoticed(Run(steps[..n], norm), steps[n], norm)
  }

  lemma Earlier(steps: seq<Step>, norm: Norm)
    requires steps != []
    ensures NeverHalfDone(steps, norm)
            ==> NeverHalfDone(steps[..|steps| - 1], norm)
                && !HalfDone(Run(steps[..|steps| - 1], norm), steps[|steps| - 1])
    ensures NeverUnnoticed(steps, norm)
            ==> NeverUnnoticed(steps[..|steps| - 1], norm)
                && !Unnoticed(Run(steps[..|steps| - 1], norm), steps[|steps| - 1], norm)
  {
    hide HalfDone, Unnoticed, Run;
    var before := steps[..|steps| - 1];
    assert forall n | 0 <= n < |before| :: before[n] == steps[n] && before[..n] == steps[..n];
  }

  /** Over any run in which no step is half done, the versions are 1 to the current one and the item
      equals its current snapshot up to the bodies' normal form - and exactly, if no edit went unnoticed. */
  lemma {:induction false} EveryRunAgrees(steps: seq<Step>, norm: Norm)
    requires NeverHalfDone(steps, norm)
    ensures Agree(Run(steps, norm), norm)
    ensures NeverUnnoticed(steps, norm) ==> Agree(Run(steps, norm), Exact)
  {
    if steps != [] {
      hide Take, Agree, HalfDone, Unnoticed, NeverHalfDone, NeverUnnoticed;
      var n := |steps| - 1;
      Earlier(steps, norm);
      EveryRunAgrees(steps[..n], norm);
      StepAgreesUpTo(Run(steps[..n], norm), steps[n], norm);
      if NeverUnnoticed(steps, norm) { StepAgreesIff(Run(steps[..n], norm), steps[n], norm); }
    }
  }

  /** No edit goes unnoticed when different bodies have different normal forms: then the item equals its
      current snapshot exactly. */
  lemma {:induction false} FaithfulFormsAgree(steps: seq<Step>, norm: Norm)
    requires forall a, b :: norm(a) == norm(b) ==> a == b
    requires NeverHalfDone(steps, norm)
    ensures Agree(Run(steps, norm), Exact)
  {
    hide Run, HalfDone, NeverHalfDone, Agree;
    assert NeverUnnoticed(steps, norm);
    EveryRunAgrees(steps, norm);
  }

  // ---- the log only grows ----------------------------------------------------------------

  predicate TextKept(log: seq<Snapshot>, log': seq<Snapshot>) {
    && |log| <= |log'| <= |log| + 1
    && forall k | 0 <= k < |log| ::
       log'[k].version == log[k].version && log'[k].text == log[k].text && log'[k].note == log[k].note
  }

  /** Whatever the step and wherever it breaks: no snapshot's text changes, at most one is added, and
      of a numbered log only the current snapshot's status can change. */
  lemma OldTextNeverChanges(c: Content, s: Step, norm: Norm)
    ensures TextKept(c.log, Take(c, s, norm).0.log)
    ensures Agree(c, norm) ==> forall k | 0 <= k < |c.log| - 1 :: Take(c, s, norm).0.log[k] == c.log[k]
  {
    hide Find;
  }

  /** Restoring version v of an item whose history agrees: refused when v is current, not found when
      there is no v, and otherwise a new version with v's text and everything before it unchanged. */
  lemma RestoreAppends(c: Content, v: nat, norm: Norm)
    requires Agree(c, norm) && c.item.Some? && v >= 1
    ensures var (after, outcome) := Take(c, Restore(v, NoFault), norm);
            var current := c.item.value.version;
            && (outcome == Conflict <==> v == current)
            && (outcome == NotFound <==> v > current)
            && (outcome == Done <==> v < current)
            && (v >= current ==> after == c)
            && (v < current ==>
                  && after.item == Some(Item(c.log[v - 1].text, c.item.value.status, current + 1))
                  && |after.log| == |c.log| + 1 && after.log[..|c.log|] == c.log
                  && after.log[|c.log|].text == c.log[v - 1].text)
  {
    FindNumbered(c.log, v);
  }

  /** A restore can be undone by restoring what was current: the text is back, two versions later. */
  lemma RestoreIsUndone(c: Content, v: nat, norm: Norm)
    requires Agree(c, Exact) && c.item.Some? && 1 <= v < c.item.value.version
    ensures var once := Take(c, Restore(v, NoFault), norm).0;
            var twice := Take(once, Restore(c.item.value.version, NoFault), norm).0;
            twice.item == Some(c.item.value.(version := c.item.value.version + 2)) && |twice.log| == |c.log| + 2
  {
    FindNumbered(c.log, v);
    var once := Take(c, Restore(v, NoFault), norm).0;
    FindNumbered(once.log, c.item.value.version);
  }

  // ---- what each step writes -------------------------------------------------------------

  predicate SaysItem(s: Snapshot, i: Item) {
    && s.version == i.version && s.status == i.status
    && s.text.title == i.text.title && s.text.body == i.text.body
    && s.text.difficulty == i.text.difficulty && s.text.tags == i.text.tags
  }

  /** A new item is a draft at version 1 with what was given - an empty body, difficulty 5 and no tags where
      nothing was - and its first snapshot says so. */
  lemma CreatedIs(c: Content, title: string, body: Option<Body>, difficulty: Option<int>, tags: Option<seq<string>>,
      norm: Norm)
    requires c.item == None
    ensures var (after, outcome) := Take(c, Create(title, body, difficulty, tags, NoFault), norm);
            && outcome == Done && after.item.Some? && |after.log| == |c.log| + 1 && after.log[..|c.log|] == c.log
            && var i := after.item.value;
               && i.version == 1 && i.status == "draft" && i.text.title == title
               && i.text.body == (if body.Some? then body.value else EMPTY_BODY)
               && i.text.difficulty == (if difficulty.Some? then difficulty.value else 5)
               && i.text.tags == (if tags.Some? then tags.value else [])
               && SaysItem(after.log[|c.log|], i) && after.log[|c.log|].note == "Created"
  {
  }

  /** An edit sets exactly the fields it names. Only when the title, the difficulty, the tags or the body's
      normal form differ from before is there a new version, and then one snapshot that says it. */
  lemma EditedIs(c: Content, e: Edit, norm: Norm)
    requires c.item.Some?
    ensures var (after, outcome) := Take(c, Update(e, NoFault), norm);
            && outcome == Done && after.item.Some?
            && var was, i := c.item.value, after.item.value;
               var noticed := || i.text.title != was.text.title || i.text.difficulty != was.text.difficulty
                              || i.text.tags != was.text.tags || norm(i.text.body) != norm(was.text.body);
               && i.text.title == (if e.title.Some? then e.title.value else was.text.title)
               && i.text.body == (if e.body.Some? then e.body.value else was.text.body)
               && i.text.difficulty == (if e.difficulty.Some? then e.difficulty.value else was.text.difficulty)
               && i.text.tags == (if e.tags.Some? then e.tags.value else was.text.tags)
               && i.status == was.status
               && (!noticed ==> i.version == was.version && after.log == c.log)
               && (noticed ==>
                     && i.version == was.version + 1
                     && |after.log| == |c.log| + 1 && after.log[..|c.log|] == c.log
                     && SaysItem(after.log[|c.log|], i)
                     && after.log[|c.log|].note == if e.note.Some? then e.note.value else "")
  {
  }

  /** A status change is refused only for publishing what is a dead end; otherwise it sets the item's status and
      that of the snapshots of its version, and nothing else. */
  lemma MovedIs(c: Content, status: string, answerable: bool, norm: Norm)
    requires c.item.Some?
    ensures var (after, outcome) := Take(c, SetStatus(status, answerable, NoFault), norm);
            && (outcome == Conflict <==> status == "published" && !answerable)
            && (outcome == Conflict ==> after == c)
            && (outcome != Conflict ==>
                  && outcome == Done
                  && after.item == Some(Item(c.item.value.text, status, c.item.value.version))
                  && |after.log| == |c.log|
                  && forall k | 0 <= k < |c.log| ::
                     && after.log[k].version == c.log[k].version && after.log[k].text == c.log[k].text
                     && after.log[k].note == c.log[k].note
                     && after.log[k].status
                        == if c.log[k].version == c.item.value.version then status else c.log[k].status)
  {
  }
}
