/**
 * Building a lesson from its declarative description, once that has been
 * parsed into a mapping: the lesson's own keys, the list of step entries
 * and the optional list of next lessons.
 */
module LessonLoader {
  import opened Wrappers
  import opened Paths
  import opened Host
  import opened Lessons

  /** One entry of a list in the parsed description: its keys and their text values. */
  type Entry = map<string, string>

  /** The parsed description: `name`, `group` and `description` in `fields`, then `steps` and `nextLessons` when present. */
  datatype LessonDocument = LessonDocument(fields: Entry, steps: Option<seq<Entry>>, nextLessons: Option<seq<Entry>>)

  /** The key a step entry is missing, looked up in the order the loader reads them; menu entries miss nothing. */
  function StepEntryError(e: Entry): (r: Option<string>)
    ensures r.None? <==> "menu" in e || ("name" in e && "description" in e)
    ensures r.Some? ==> r.value !in e
  {
    if "menu" in e then None
    else if "name" !in e then Some("name")
    else if "description" !in e then Some("description")
    else None
  }

  /** The key a next-lesson entry is missing, in the order the loader reads them. */
  function NextEntryError(e: Entry): (r: Option<string>)
    ensures r.None? <==> "group" in e && "name" in e
  {
    if "group" !in e then Some("group")
    else if "name" !in e then Some("name")
    else None
  }

  /** The index of the first step entry that is missing a key, or |es| when none is. */
  function FirstBadStep(es: seq<Entry>): (k: nat)
    ensures k <= |es|
    ensures forall j :: 0 <= j < k ==> StepEntryError(es[j]).None?
    ensures k < |es| ==> StepEntryError(es[k]).Some?
  {
    if es == [] then 0
    else if StepEntryError(es[0]).Some? then 0
    else 1 + FirstBadStep(es[1..])
  }

  /** The index of the first next-lesson entry that is missing a key, or |es| when none is. */
  function FirstBadNext(es: seq<Entry>): (k: nat)
    ensures k <= |es|
    ensures forall j :: 0 <= j < k ==> NextEntryError(es[j]).None?
    ensures k < |es| ==> NextEntryError(es[k]).Some?
  {
    if es == [] then 0
    else if NextEntryError(es[0]).Some? then 0
    else 1 + FirstBadNext(es[1..])
  }

  /** Whatever position has only well-formed entries before it and an ill-formed one (or the end) at it is the first bad one. */
  lemma FirstBadStepAt(es: seq<Entry>, i: nat)
    requires i <= |es|
    requires forall j :: 0 <= j < i ==> StepEntryError(es[j]).None?
    requires i < |es| ==> StepEntryError(es[i]).Some?
    ensures FirstBadStep(es) == i
  {
  }

  /** The same for next-lesson entries. */
  lemma FirstBadNextAt(es: seq<Entry>, k: nat)
    requires k <= |es|
    requires forall j :: 0 <= j < k ==> NextEntryError(es[j]).None?
    requires k < |es| ==> NextEntryError(es[k]).Some?
    ensures FirstBadNext(es) == k
  {
  }

  /** The key the first ill-formed step entry is missing, if any entry is ill-formed. */
  function StepsError(es: seq<Entry>): Option<string> {
    if FirstBadStep(es) < |es| then StepEntryError(es[FirstBadStep(es)]) else None
  }

  /** The key the first ill-formed next-lesson entry is missing, if any entry is ill-formed. */
  function NextError(es: seq<Entry>): Option<string> {
    if FirstBadNext(es) < |es| then NextEntryError(es[FirstBadNext(es)]) else None
  }

  /** The KeyError loading raises, naming the first key that is looked up and missing. */
  function LoadError(doc: LessonDocument): (r: Option<string>)
    ensures r.None? <==>
      "name" in doc.fields && "group" in doc.fields && "description" in doc.fields && doc.steps.Some? &&
      (forall j :: 0 <= j < |doc.steps.value| ==> StepEntryError(doc.steps.value[j]).None?) &&
      (doc.nextLessons.Some? ==>
         forall j :: 0 <= j < |doc.nextLessons.value| ==> NextEntryError(doc.nextLessons.value[j]).None?)
  {
    if "name" !in doc.fields then Some("name")
    else if "group" !in doc.fields then Some("group")
    else if "description" !in doc.fields then Some("description")
    else if doc.steps.None? then Some("steps")
    else if StepsError(doc.steps.value).Some? then StepsError(doc.steps.value)
    else if doc.nextLessons.Some? then NextError(doc.nextLessons.value)
    else None
  }

  /** The step entries the loader gets through before it stops, whether it stops on an error or not. */
  function ProcessedSteps(doc: LessonDocument): seq<Entry> {
    if "name" !in doc.fields || "group" !in doc.fields || "description" !in doc.fields || doc.steps.None? then []
    else doc.steps.value[..FirstBadStep(doc.steps.value)]
  }

  /** The description a menu entry gives, if it gives one. */
  function EntryDescription(e: Entry): Option<string> {
    if "description" in e then Some(e["description"]) else None
  }

  /** The steps one well-formed entry adds: a menu step when its menu resolves, none when it does not, or a manual step. */
  function EntrySteps(env: Env, folder: string, e: Entry): (r: seq<Step>)
    requires env.Valid() && StepEntryError(e).None?
    ensures |r| <= 1
    ensures "menu" in e ==> r == MenuSteps(env, folder, e["menu"], EntryDescription(e))
    ensures "menu" !in e ==>
      |r| == 1 && r[0].name == e["name"] && r[0].description == ResolvedFile(env, folder, Some(e["description"])) &&
      r[0].func.None? && r[0].prestep.None? && r[0].endSignal.None? && r[0].endSignalCheck.None? &&
      r[0].endCheck == Some(AlwaysTrue)
    ensures forall s :: s in r ==> s.stepType == MANUALSTEP
  {
    if "menu" in e then MenuSteps(env, folder, e["menu"], EntryDescription(e))
    else
      [NewStep(e["name"], Some(ResolvedFile(env, folder, Some(e["description"]))), stepType := MANUALSTEP)]
  }

  /** The steps a list of well-formed entries adds, in order. */
  function StepsFrom(env: Env, folder: string, es: seq<Entry>): seq<Step>
    requires env.Valid()
    requires forall j :: 0 <= j < |es| ==> StepEntryError(es[j]).None?
  {
    if es == [] then []
    else StepsFrom(env, folder, es[..|es| - 1]) + EntrySteps(env, folder, es[|es| - 1])
  }

  /** The warnings a list of entries logs: one per menu entry that does not resolve. */
  function Warnings(env: Env, es: seq<Entry>): seq<LogEntry>
    requires env.Valid()
  {
    if es == [] then []
    else
      var e := es[|es| - 1];
      Warnings(env, es[..|es| - 1]) +
      (if "menu" in e then MenuWarnings(env, e["menu"]) else [])
  }

  /** The (group, name) pairs a list of well-formed next-lesson entries adds. */
  function NextLessonsFrom(es: seq<Entry>): (r: seq<(string, string)>)
    requires forall j :: 0 <= j < |es| ==> "group" in es[j] && "name" in es[j]
    ensures |r| == |es|
    ensures forall j :: 0 <= j < |es| ==> r[j] == (es[j]["group"], es[j]["name"])
  {
    if es == [] then []
    else NextLessonsFrom(es[..|es| - 1]) + [(es[|es| - 1]["group"], es[|es| - 1]["name"])]
  }

  /** The number of entries without a `menu` key. */
  function PlainCount(es: seq<Entry>): nat {
    if es == [] then 0
    else PlainCount(es[..|es| - 1]) + (if "menu" in es[|es| - 1] then 0 else 1)
  }

  /** The number of menu entries whose menu resolves. */
  function ResolvedCount(env: Env, es: seq<Entry>): nat
    requires env.Valid()
  {
    if es == [] then 0
    else
      var e := es[|es| - 1];
      ResolvedCount(env, es[..|es| - 1]) + (if "menu" in e && ResolveMenu(env, e["menu"]).Some? then 1 else 0)
  }

  /**
   * Every entry yields exactly one step or exactly one warning: the steps
   * number the plain entries plus the menu entries that resolved.
   */
  lemma {:induction false} StepsFromCount(env: Env, folder: string, es: seq<Entry>)
    requires env.Valid()
    requires forall j :: 0 <= j < |es| ==> StepEntryError(es[j]).None?
    ensures |StepsFrom(env, folder, es)| == PlainCount(es) + ResolvedCount(env, es)
    ensures |StepsFrom(env, folder, es)| + |Warnings(env, es)| == |es|
  {
    if es != [] {
      StepsFromCount(env, folder, es[..|es| - 1]);
    }
  }

  /**
   * A loaded lesson has one step per plain entry and per menu entry that
   * resolved, plus the project step when the folder holds a project.
   */
  lemma LessonStepCount(env: Env, folder: string, es: seq<Entry>)
    requires env.Valid()
    requires forall j :: 0 <= j < |es| ==> StepEntryError(es[j]).None?
    ensures |InitialSteps(env, folder) + StepsFrom(env, folder, es)| ==
              (if ProjectPath(folder) in env.existing then 1 else 0) + PlainCount(es) + ResolvedCount(env, es)
  {
    StepsFromCount(env, folder, es);
  }

  /** Every step a declarative description adds is a manual one. */
  lemma {:induction false} StepsFromManual(env: Env, folder: string, es: seq<Entry>)
    requires env.Valid()
    requires forall j :: 0 <= j < |es| ==> StepEntryError(es[j]).None?
    ensures forall s :: s in StepsFrom(env, folder, es) ==> s.stepType == MANUALSTEP
  {
    if es != [] {
      StepsFromManual(env, folder, es[..|es| - 1]);
    }
  }

  /** Loading entries one list after another gives the steps of the first list, then those of the second. */
  lemma {:induction false} StepsFromAppend(env: Env, folder: string, a: seq<Entry>, b: seq<Entry>)
    requires env.Valid()
    requires forall j :: 0 <= j < |a| ==> StepEntryError(a[j]).None?
    requires forall j :: 0 <= j < |b| ==> StepEntryError(b[j]).None?
    ensures forall j :: 0 <= j < |a + b| ==> StepEntryError((a + b)[j]).None?
    ensures StepsFrom(env, folder, a + b) == StepsFrom(env, folder, a) + StepsFrom(env, folder, b)
  {
    assert forall j :: 0 <= j < |a + b| ==> (a + b)[j] == if j < |a| then a[j] else b[j - |a|];
    if b == [] {
      assert a + b == a;
    } else {
      var b', e := b[..|b| - 1], b[|b| - 1];
      assert (a + b)[..|a + b| - 1] == a + b' && (a + b)[|a + b| - 1] == e;
      StepsFromAppend(env, folder, a, b');
      calc {
        StepsFrom(env, folder, a + b);
        StepsFrom(env, folder, a + b') + EntrySteps(env, folder, e);
        StepsFrom(env, folder, a) + (StepsFrom(env, folder, b') + EntrySteps(env, folder, e));
      }
    }
  }

  /** Processing entry `i` after the first `i` extends the steps and warnings by that entry's alone. */
  lemma StepsFromNext(env: Env, folder: string, es: seq<Entry>, i: nat)
    requires env.Valid()
    requires i < |es| && forall j :: 0 <= j <= i ==> StepEntryError(es[j]).None?
    ensures StepsFrom(env, folder, es[..i + 1]) == StepsFrom(env, folder, es[..i]) + EntrySteps(env, folder, es[i])
    ensures Warnings(env, es[..i + 1]) == Warnings(env, es[..i]) +
      (if "menu" in es[i] then MenuWarnings(env, es[i]["menu"]) else [])
  {
    assert es[..i + 1][..i] == es[..i];
  }

  /** The body of that loop for one entry: a menu step (or a warning), a manual step, or the missing key. */
  method AddStepEntry(env: Env, log: MessageLog, lesson: Lesson, step: Entry) returns (error: Option<string>)
    requires env.Valid()
    modifies lesson`steps, log
    ensures error == StepEntryError(step)
    ensures error.None? ==> lesson.steps == old(lesson.steps) + EntrySteps(env, lesson.folder, step)
    ensures error.Some? ==> lesson.steps == old(lesson.steps)
    ensures log.entries == old(log.entries) + (if "menu" in step then MenuWarnings(env, step["menu"]) else [])
  {
    if "menu" in step {
      var description := if "description" in step then Some(step["description"]) else None;
      lesson.AddMenuClickStep(env, log, step["menu"], description);
    } else {
      if "name" !in step { return Some("name"); }
      if "description" !in step { return Some("description"); }
      lesson.AddStep(env, step["name"], Some(step["description"]), stepType := MANUALSTEP);
    }
    return None;
  }

  /**
   * The loop of `lessonFromYamlFile` over the step entries: each menu entry
   * becomes a menu step (or a warning), each other entry a manual step,
   * until an entry lacks a key.
   */
  method AddStepEntries(env: Env, log: MessageLog, lesson: Lesson, es: seq<Entry>) returns (error: Option<string>)
    requires env.Valid()
    modifies lesson`steps, log
    ensures error == StepsError(es)
    ensures log.entries == old(log.entries) + Warnings(env, es[..FirstBadStep(es)])
    ensures lesson.steps == old(lesson.steps) + StepsFrom(env, lesson.folder, es[..FirstBadStep(es)])
    ensures error.None? ==> lesson.steps == old(lesson.steps) + StepsFrom(env, lesson.folder, es)
  {
    error := None;
    var i := 0;
    while i < |es|
      invariant 0 <= i <= |es|
      invariant forall j :: 0 <= j < i ==> StepEntryError(es[j]).None?
      invariant error.None?
      invariant lesson.steps == old(lesson.steps) + StepsFrom(env, lesson.folder, es[..i])
      invariant log.entries == old(log.entries) + Warnings(env, es[..i])
    {
      error := AddStepEntry(env, log, lesson, es[i]);
      if error.Some? {
        FirstBadStepAt(es, i);
        return;
      }
      StepsFromNext(env, lesson.folder, es, i);
      i := i + 1;
    }
    assert es[..|es|] == es;
    FirstBadStepAt(es, |es|);
  }

  /** The loop of `lessonFromYamlFile` over the next-lesson entries, until an entry lacks a key. */
  method AddNextLessonEntries(lesson: Lesson, ns: seq<Entry>) returns (error: Option<string>)
    modifies lesson`nextLessons
    ensures error == NextError(ns)
    ensures error.None? ==> lesson.nextLessons == old(lesson.nextLessons) + NextLessonsFrom(ns)
    ensures FirstBadNext(ns) <= |ns| && forall j :: 0 <= j < FirstBadNext(ns) ==> "group" in ns[j] && "name" in ns[j]
    ensures lesson.nextLessons == old(lesson.nextLessons) + NextLessonsFrom(ns[..FirstBadNext(ns)])
  {
    var k := 0;
    while k < |ns|
      invariant 0 <= k <= |ns|
      invariant forall j :: 0 <= j < k ==> "group" in ns[j] && "name" in ns[j]
      invariant lesson.nextLessons == old(lesson.nextLessons) + NextLessonsFrom(ns[..k])
    {
      var next := ns[k];
      if "group" !in next || "name" !in next {
        FirstBadNextAt(ns, k);
        return if "group" !in next then Some("group") else Some("name");
      }
      assert ns[..k + 1][..k] == ns[..k];
      lesson.AddNextLesson(next["group"], next["name"]);
      k := k + 1;
    }
    assert ns[..|ns|] == ns;
    FirstBadNextAt(ns, |ns|);
    return None;
  }

  /**
   * `lessonFromYamlFile`: the lesson described by `doc`, read from file `f`,
   * or the first key the description lacks. Warnings for menu entries that
   * do not resolve are logged as the entries are processed.
   */
  method LessonFromYamlFile(env: Env, log: MessageLog, f: string, doc: LessonDocument)
    returns (r: Result<Lesson, string>)
    requires env.Valid()
    modifies log
    ensures r.Failure? <==> LoadError(doc).Some?
    ensures r.Failure? ==> r.error == LoadError(doc).value
    ensures log.entries == old(log.entries) + Warnings(env, ProcessedSteps(doc))
    ensures r.Success? ==>
      var folder := Dirname(f);
      var lesson := r.value;
      fresh(lesson) &&
      lesson.name == doc.fields["name"] && lesson.group == doc.fields["group"] && lesson.folder == folder &&
      lesson.description == ResolvedFile(env, folder, Some(doc.fields["description"])) &&
      lesson.style == InitialStyle(env, folder) &&
      lesson.steps == InitialSteps(env, folder) + StepsFrom(env, folder, doc.steps.value) &&
      lesson.cleanup == DoNothing &&
      lesson.nextLessons == (if doc.nextLessons.Some? then NextLessonsFrom(doc.nextLessons.value) else [])
  {
    if "name" !in doc.fields { return Failure("name"); }
    if "group" !in doc.fields { return Failure("group"); }
    if "description" !in doc.fields { return Failure("description"); }
    var folder := Dirname(f);
    var lesson: Lesson := new Lesson(env, doc.fields["name"], doc.fields["group"], Some(doc.fields["description"]), folder);
    if doc.steps.None? { return Failure("steps"); }
    var error := AddStepEntries(env, log, lesson, doc.steps.value);
    if error.Some? { return Failure(error.value); }
    if doc.nextLessons.Some? {
      error := AddNextLessonEntries(lesson, doc.nextLessons.value);
      if error.Some? { return Failure(error.value); }
    }
    return Success(lesson);
  }
}
