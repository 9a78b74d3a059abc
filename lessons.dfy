/**
 * Steps and lessons: the records a tutorial is made of and the operations
 * that build a lesson step by step.
 */
module Lessons {
  import opened Wrappers
  import opened Text
  import opened Paths
  import opened Host

  /** The step type codes. */
  const MANUALSTEP: int := 0
  const AUTOMATEDSTEP: int := 1

  /**
   * The callables a step or lesson holds. Lesson code passes its own
   * (`UserCode`, opaque here); the others are the lambdas and closures
   * the lesson code creates itself.
   */
  datatype Callable =
    | UserCode(id: nat)              // a callable supplied by lesson code
    | AlwaysTrue                     // `lambda: True`, the default end check
    | DoNothing                      // `lambda: None`, the default cleanup
    | OpenProject(path: string)      // `lambda: openProject(path)`
    | Execute(inner: Callable)       // `lambda: execute(function)`: failures are caught and reported
    | CheckMenu(actionText: string)  // `checkMenu`: compares a triggered action's text with this one

  /** One step of a lesson; a passive record the host's execution loop interprets. */
  datatype Step = Step(
    name: string,
    description: string,
    func: Option<Callable>,
    prestep: Option<Callable>,
    endSignal: Option<Signal>,
    endSignalCheck: Option<Callable>,
    endCheck: Option<Callable>,
    stepType: int)

  /** `Step(...)`: the fields as given, with a missing description read as "". */
  function NewStep(name: string, description: Option<string>, func: Option<Callable> := None,
                   prestep: Option<Callable> := None, endSignal: Option<Signal> := None,
                   endSignalCheck: Option<Callable> := None, endCheck: Option<Callable> := Some(AlwaysTrue),
                   stepType: int := AUTOMATEDSTEP): (s: Step)
    ensures s.description == if description.Some? then description.value else ""
    ensures s.name == name && s.func == func && s.prestep == prestep && s.stepType == stepType
    ensures s.endSignal == endSignal && s.endSignalCheck == endSignalCheck && s.endCheck == endCheck
  {
    Step(name, description.GetOr(""), func, prestep, endSignal, endSignalCheck, endCheck, stepType)
  }

  /** What an end-signal check answers when the signal fires with `triggered`; lesson code's own checks are opaque. */
  function SignalCheckResult(check: Callable, triggered: MenuAction): (r: Option<bool>)
    ensures r.Some? <==> check.CheckMenu?
    ensures check.CheckMenu? ==> (r == Some(true) <==> triggered.text == check.actionText)
  {
    match check
    case CheckMenu(text) => Some(triggered.text == text)
    case _ => None
  }

  /** The function a step stores: the given one wrapped by `execute`, or none. */
  function Wrapped(func: Option<Callable>): (r: Option<Callable>)
    ensures r.None? <==> func.None?
    ensures r.Some? ==> r.value.Execute? && r.value.inner == func.value
  {
    match func
    case None => None
    case Some(f) => Some(Execute(f))
  }

  // ---------------------------------------------------------------------
  // Localised resource resolution

  /** The locales `resolveFile` tries, in order. */
  function SearchLocales(env: Env): seq<string> {
    [env.locale, "en"]
  }

  /** `folder/locale/f`. */
  function LocalePath(folder: string, locale: string, f: string): string {
    Join(Join(folder, locale), f)
  }

  /** A locale is taken when `locale/f` does not exist relative to the working directory but `folder/locale/f` does. */
  predicate Usable(env: Env, folder: string, locale: string, f: string)
    ensures Usable(env, folder, locale, f) ==> LocalePath(folder, locale, f) in env.existing
  {
    Join(locale, f) !in env.existing && LocalePath(folder, locale, f) in env.existing
  }

  /** The localised path of the first usable locale, if any. */
  function Localized(env: Env, folder: string, locales: seq<string>, f: string): (r: Option<string>)
    ensures r.Some? ==> r.value in env.existing
  {
    if locales == [] then None
    else if Usable(env, folder, locales[0], f) then Some(LocalePath(folder, locales[0], f))
    else Localized(env, folder, locales[1..], f)
  }

  /** The search finds nothing exactly when no locale is usable. */
  lemma {:induction false} LocalizedNone(env: Env, folder: string, locales: seq<string>, f: string)
    ensures Localized(env, folder, locales, f).None? <==>
              forall k :: 0 <= k < |locales| ==> !Usable(env, folder, locales[k], f)
  {
    if locales != [] && !Usable(env, folder, locales[0], f) {
      LocalizedNone(env, folder, locales[1..], f);
      assert forall k :: 1 <= k < |locales| ==> locales[k] == locales[1..][k - 1];
    }
  }

  /** When locale `k` is the first usable one, the search returns its localised path. */
  lemma {:induction false} LocalizedFirst(env: Env, folder: string, locales: seq<string>, f: string, k: nat)
    requires k < |locales| && Usable(env, folder, locales[k], f)
    requires forall j :: 0 <= j < k ==> !Usable(env, folder, locales[j], f)
    ensures Localized(env, folder, locales, f) == Some(LocalePath(folder, locales[k], f))
  {
    if k > 0 {
      var rest := locales[1..];
      assert rest[k - 1] == locales[k];
      forall j | 0 <= j < k - 1 ensures !Usable(env, folder, rest[j], f) {
        assert rest[j] == locales[j + 1];
      }
      LocalizedFirst(env, folder, rest, f, k - 1);
      assert !Usable(env, folder, locales[0], f);
    }
  }

  /** What `resolveFile(f)` returns for a lesson in `folder`. */
  function ResolvedFile(env: Env, folder: string, f: Option<string>): (r: string)
    ensures f.None? ==> r == ""
    ensures f.Some? ==> r == f.value || r in env.existing
  {
    match f
    case None => ""
    case Some(name) => Localized(env, folder, SearchLocales(env), name).GetOr(name)
  }

  /** The host locale is tried first, then "en", and an unmatched name is returned unchanged. */
  lemma ResolvedFileOrder(env: Env, folder: string, f: string)
    ensures var r := ResolvedFile(env, folder, Some(f));
      if Usable(env, folder, env.locale, f) then r == LocalePath(folder, env.locale, f)
      else if Usable(env, folder, "en", f) then r == LocalePath(folder, "en", f)
      else r == f
  {
    var locales := SearchLocales(env);
    if !Usable(env, folder, env.locale, f) {
      assert Localized(env, folder, locales, f) == Localized(env, folder, locales[1..], f);
      assert locales[1..] == ["en"];
      if !Usable(env, folder, "en", f) {
        assert Localized(env, folder, ["en"], f) == Localized(env, folder, ["en"][1..], f);
        assert ["en"][1..] == [];
      }
    }
  }

  // ---------------------------------------------------------------------
  // Menu steps

  /** `menuFromName(menuName)`, falling back to the first close match among the menu paths. */
  function ResolveMenu(env: Env, menuName: string): (r: Option<(Menu, MenuAction)>)
    requires env.Valid()
    ensures menuName in env.menus ==> r == Some(env.menus[menuName])
    ensures r.None? <==> menuName !in env.menus && env.closeMatches(menuName, env.menuPaths) == []
    ensures r.Some? ==> exists p :: p in env.menus && env.menus[p] == r.value
  {
    if menuName in env.menus then Some(env.menus[menuName])
    else
      var closest := env.closeMatches(menuName, env.menuPaths);
      if |closest| > 0 then
        assert closest[0] in closest;
        Some(env.menus[closest[0]])
      else None
  }

  const WrongMenuPrefix: string := "Lesson contains a wrong menu name: "

  /** The warning logged for a menu name that cannot be resolved: the fixed sentence, then the authored name. */
  function WrongMenuMessage(menuName: string): (r: string)
    ensures |r| == |WrongMenuPrefix| + |menuName|
    ensures r[..|WrongMenuPrefix|] == WrongMenuPrefix && r[|WrongMenuPrefix|..] == menuName
  {
    WrongMenuPrefix + menuName
  }

  /** The name of a menu step: the action's text, mnemonic ampersands removed, in a fixed sentence. */
  function MenuItemName(actionText: string): (r: string)
    ensures '&' !in r
  {
    "Click on '" + Replace(actionText, '&', "") + "' menu item."
  }

  const DescriptionHead: string := "<p>Click on <b>"
  const DescriptionTail: string :=
    "</b> menu item.</p><p>Once you click, the lesson will automatically move to the next step.</p>"

  /** The description a menu step gets when none is given: the authored path with " > " between its parts. */
  function DefaultMenuDescription(menuName: string): (r: string)
    ensures |r| >= |DescriptionHead| + |DescriptionTail|
    ensures r[..|DescriptionHead|] == DescriptionHead && r[|r| - |DescriptionTail|..] == DescriptionTail
    ensures '/' !in r[|DescriptionHead|..|r| - |DescriptionTail|]
  {
    DescriptionHead + Replace(menuName, '/', " > ") + DescriptionTail
  }

  /** The default description shows the menu path's segments separated by " > ". */
  lemma DefaultMenuDescriptionShowsSegments(menuName: string)
    ensures DefaultMenuDescription(menuName) ==
              DescriptionHead + JoinWith(Split(menuName, '/'), " > ") + DescriptionTail
  {
    ReplaceIsJoinOfSplit(menuName, '/', " > ");
  }

  /** The step `addMenuClickStep` appends once the menu resolved to (`menu`, `action`). */
  function MenuClickStep(env: Env, folder: string, menuName: string, description: Option<string>,
                         menu: Menu, action: MenuAction): (s: Step)
    ensures s.name == MenuItemName(action.text) && '&' !in s.name
    ensures description.Some? ==> s.description == ResolvedFile(env, folder, description)
    ensures description.None? ==> s.description == ResolvedFile(env, folder, Some(DefaultMenuDescription(menuName)))
    ensures s.endSignal == Some(Triggered(menu)) && s.endSignalCheck.Some?
    ensures forall t: MenuAction :: SignalCheckResult(s.endSignalCheck.value, t) == Some(t.text == action.text)
    ensures s.func.None? && s.prestep.None? && s.endCheck.None? && s.stepType == MANUALSTEP
  {
    NewStep(MenuItemName(action.text),
            Some(ResolvedFile(env, folder, Some(description.GetOr(DefaultMenuDescription(menuName))))),
            None, None, Some(Triggered(menu)), Some(CheckMenu(action.text)), None, MANUALSTEP)
  }

  /** The steps `addMenuClickStep` appends: one menu step when the menu resolves, none otherwise. */
  function MenuSteps(env: Env, folder: string, menuName: string, description: Option<string>): seq<Step>
    requires env.Valid()
  {
    match ResolveMenu(env, menuName)
    case Some((menu, action)) => [MenuClickStep(env, folder, menuName, description, menu, action)]
    case None => []
  }

  /** The warnings `addMenuClickStep` logs: one naming the menu when it does not resolve, none otherwise. */
  function MenuWarnings(env: Env, menuName: string): seq<LogEntry>
    requires env.Valid()
  {
    if ResolveMenu(env, menuName).None? then [LogEntry(WrongMenuMessage(menuName), Warning)] else []
  }

  /**
   * The three outcomes of `addMenuClickStep`: the exact menu, else the first
   * close match (the step is named after the matched action while a default
   * description still shows the authored name), else no step and one warning.
   */
  lemma MenuStepsCases(env: Env, folder: string, menuName: string, description: Option<string>)
    requires env.Valid()
    ensures |MenuSteps(env, folder, menuName, description)| + |MenuWarnings(env, menuName)| == 1
    ensures menuName in env.menus ==>
      MenuSteps(env, folder, menuName, description) ==
        [MenuClickStep(env, folder, menuName, description, env.menus[menuName].0, env.menus[menuName].1)]
    ensures var closest := env.closeMatches(menuName, env.menuPaths);
      menuName !in env.menus && closest != [] ==>
        closest[0] in env.menus &&
        MenuSteps(env, folder, menuName, description) ==
          [MenuClickStep(env, folder, menuName, description, env.menus[closest[0]].0, env.menus[closest[0]].1)] &&
        MenuSteps(env, folder, menuName, description)[0].name == MenuItemName(env.menus[closest[0]].1.text) &&
        (description.None? ==>
           MenuSteps(env, folder, menuName, description)[0].description ==
             ResolvedFile(env, folder, Some(DefaultMenuDescription(menuName))))
    ensures menuName !in env.menus && env.closeMatches(menuName, env.menuPaths) == [] ==>
      MenuSteps(env, folder, menuName, description) == [] &&
      MenuWarnings(env, menuName) == [LogEntry(WrongMenuMessage(menuName), Warning)]
  {
    var closest := env.closeMatches(menuName, env.menuPaths);
    if closest != [] {
      assert closest[0] in closest;
    }
  }

  // ---------------------------------------------------------------------
  // Lesson construction

  /** `folder/project.qgs`. */
  function ProjectPath(folder: string): string {
    Join(folder, "project.qgs")
  }

  /** `folder/style.css`. */
  function StylePath(folder: string): string {
    Join(folder, "style.css")
  }

  /** The step that opens the lesson's project. */
  function OpenProjectStep(env: Env, folder: string): (s: Step)
    ensures s.name == "Open project" && s.stepType == AUTOMATEDSTEP
    ensures s.func == Some(Execute(OpenProject(ProjectPath(folder))))
    ensures s.endSignal.None? && s.endCheck == Some(AlwaysTrue)
  {
    NewStep("Open project", Some(ResolvedFile(env, folder, Some("Open project"))),
            Wrapped(Some(OpenProject(ProjectPath(folder)))))
  }

  /** The steps a new lesson starts with. */
  function InitialSteps(env: Env, folder: string): (r: seq<Step>)
    ensures |r| <= 1
    ensures r != [] <==> ProjectPath(folder) in env.existing
    ensures r != [] ==> r[0].name == "Open project" && r[0].func.Some?
  {
    if ProjectPath(folder) in env.existing then [OpenProjectStep(env, folder)] else []
  }

  /** The style of a new lesson: the stylesheet's text in a `<style>` element, or nothing. */
  function InitialStyle(env: Env, folder: string): (r: string)
    ensures r == [] <==> StylePath(folder) !in env.existing
    ensures r != [] ==> |r| >= 18 && r[..8] == "<style>\n" && r[|r| - 10..] == "\n</style>\n"
  {
    if StylePath(folder) in env.existing
    then "<style>\n" + env.fileText(StylePath(folder)) + "\n</style>\n"
    else ""
  }

  class Lesson {
    const name: string
    const group: string
    const folder: string
    var description: string
    var style: string
    var steps: seq<Step>
    var cleanup: Callable
    var nextLessons: seq<(string, string)>

    /** A new lesson: no next lessons, a no-op cleanup, and the project step when the folder has a project. */
    constructor (env: Env, name: string, group: string, description: Option<string>, folder: string)
      ensures this.name == name && this.group == group && this.folder == folder
      ensures this.description == ResolvedFile(env, folder, description)
      ensures style == InitialStyle(env, folder)
      ensures steps == InitialSteps(env, folder)
      ensures cleanup == DoNothing && nextLessons == []
    {
      this.folder := folder;
      this.name := name;
      this.group := group;
      steps := [];
      cleanup := DoNothing;
      nextLessons := [];
      new;
      this.description := ResolveFile(env, description);
      style := "";
      if StylePath(folder) in env.existing {
        style := "<style>\n" + env.fileText(StylePath(folder)) + "\n</style>\n";
      }
      if ProjectPath(folder) in env.existing {
        AddStep(env, "Open project", Some("Open project"), Some(OpenProject(ProjectPath(folder))));
      }
    }

    /** Replaces the cleanup; last writer wins. */
    method SetCleanup(func: Callable)
      modifies this`cleanup
      ensures cleanup == func
    {
      cleanup := func;
    }

    /** Appends one (group, name) pair; duplicates are kept. */
    method AddNextLesson(group: string, name: string)
      modifies this`nextLessons
      ensures nextLessons == old(nextLessons) + [(group, name)]
    {
      nextLessons := nextLessons + [(group, name)];
    }

    /** Tries the host locale and then "en", stopping at the first localised file that exists. */
    method ResolveFile(env: Env, f: Option<string>) returns (r: string)
      ensures r == ResolvedFile(env, folder, f)
    {
      if f.None? {
        return "";
      }
      r := f.value;
      var locales := SearchLocales(env);
      var i := 0;
      while i < |locales|
        invariant 0 <= i <= |locales|
        invariant r == f.value
        invariant Localized(env, folder, locales[i..], r) == Localized(env, folder, locales, r)
      {
        var locale := locales[i];
        if Join(locale, r) !in env.existing {
          var path := Join(Join(folder, locale), r);
          if path in env.existing {
            r := path;
            break;
          }
        }
        assert locales[i..][1..] == locales[i + 1..];
        i := i + 1;
      }
    }

    /** Appends one step, with its description resolved and its function wrapped. */
    method AddStep(env: Env, name: string, description: Option<string>,
                   func: Option<Callable> := None, prestep: Option<Callable> := None,
                   endSignal: Option<Signal> := None, endSignalCheck: Option<Callable> := None,
                   endCheck: Option<Callable> := Some(AlwaysTrue), stepType: int := AUTOMATEDSTEP)
      modifies this`steps
      ensures steps == old(steps) + [Step(name, ResolvedFile(env, folder, description), Wrapped(func),
                                          prestep, endSignal, endSignalCheck, endCheck, stepType)]
    {
      var resolved := ResolveFile(env, description);
      var wrapped := if func.Some? then Some(Execute(func.value)) else None;
      steps := steps + [NewStep(name, Some(resolved), wrapped, prestep, endSignal, endSignalCheck, endCheck, stepType)];
    }

    /**
     * Appends a manual step waiting for a click on the named menu item, or,
     * when neither the name nor a close match resolves, logs one warning and
     * leaves the steps as they were.
     */
    method AddMenuClickStep(env: Env, log: MessageLog, menuName: string, description: Option<string> := None)
      requires env.Valid()
      modifies this`steps, log
      ensures steps == old(steps) + MenuSteps(env, folder, menuName, description)
      ensures log.entries == old(log.entries) + MenuWarnings(env, menuName)
    {
      var menu: Menu, action: MenuAction;
      if menuName in env.menus {
        menu, action := env.menus[menuName].0, env.menus[menuName].1;
      } else {
        var closest := env.closeMatches(menuName, env.menuPaths);
        if |closest| > 0 {
          assert closest[0] in closest;
          menu, action := env.menus[closest[0]].0, env.menus[closest[0]].1;
        } else {
          log.LogMessage("Lesson contains a wrong menu name: " + menuName, Warning);
          return;
        }
      }
      var stepName := "Click on '" + Replace(action.text, '&', "") + "' menu item.";
      var stepDescription := if description.None? then DefaultMenuDescription(menuName) else description.value;
      AddStep(env, stepName, Some(stepDescription), None, None, Some(Triggered(menu)), Some(CheckMenu(action.text)),
              None, MANUALSTEP);
    }
  }
}
