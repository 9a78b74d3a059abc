/**
 * The outside world the lesson code consults, reduced to values:
 * the file system (which paths exist and what a file holds), the host
 * application's locale, its menu table and the fuzzy matcher over menu
 * paths, plus the host's message log, which the lesson code appends to.
 */
module Host {

  /** A menu of the host application; `Triggered(m)` is its `triggered` signal. */
  datatype Menu = Menu(id: nat)

  /** A menu action; the lesson code only ever looks at its text. */
  datatype MenuAction = MenuAction(text: string)

  /** A signal a step can wait for: a menu's `triggered`, or one supplied by lesson code. */
  datatype Signal = Triggered(menu: Menu) | UserSignal(id: nat)

  datatype Env = Env(
    existing: set<string>,                              // the paths `os.path.exists` accepts
    fileText: string -> string,                         // what reading an existing file yields
    locale: string,                                     // `qgisLocale()`
    menus: map<string, (Menu, MenuAction)>,             // `menuFromName`: fails outside its keys
    menuPaths: seq<string>,                             // `getMenuPaths()`
    closeMatches: (string, seq<string>) -> seq<string>  // `difflib.get_close_matches(word, possibilities)`
  )
  {
    /**
     * What the lesson code relies on from its collaborators: every listed
     * menu path resolves, and the fuzzy matcher only returns elements of
     * the possibilities it was given.
     */
    ghost predicate Valid() {
      (forall p :: p in menuPaths ==> p in menus) &&
      (forall word: string, paths: seq<string>, m :: m in closeMatches(word, paths) ==> m in paths)
    }
  }

  /** The message levels the lesson code uses. */
  datatype Level = Warning

  datatype LogEntry = LogEntry(text: string, level: Level)

  /** The host's message log (`QgsMessageLog`): entries only accumulate. */
  class MessageLog {
    var entries: seq<LogEntry>

    constructor ()
      ensures entries == []
    {
      entries := [];
    }

    method LogMessage(text: string, level: Level)
      modifies this
      ensures entries == old(entries) + [LogEntry(text, level)]
    {
      entries := entries + [LogEntry(text, level)];
    }
  }
}
