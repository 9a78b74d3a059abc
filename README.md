# Lesson construction for the QGIS lessons plugin

This project models how the lessons plugin builds a tutorial lesson. A
`Step` is a passive record. A `Lesson` is an object whose step list and
next-lesson list only grow and whose cleanup can be replaced. Steps are
added directly (`addStep`), or by naming a menu item (`addMenuClickStep`).
A menu name resolves exactly, or through the first close match among the
host's menu paths, or not at all; in the last case one warning is logged
and no step is added. `lessonFromYamlFile` builds a lesson from an
already-parsed description.

The outside world is a value, `Host.Env`. It holds the set of paths that
exist, the text of readable files, the host locale, the menu table
(`menuFromName`), the list of menu paths (`getMenuPaths`) and the fuzzy
matcher (`difflib.get_close_matches`), which is opaque. The host message
log is a small class, `Host.MessageLog`, whose entries only accumulate.
Python lambdas become tokens of `Lessons.Callable`. `UserCode(id)` is a
callable supplied by lesson code. The lambdas the lesson code builds itself
are written out: the default end check, the no-op cleanup, the
open-project action, the `execute` wrapper and the `checkMenu` closure.

Modules:
- `Wrappers`: Option and Result.
- `Text`: `str.replace` with a one-character pattern, and split/join.
- `Paths`: `os.path.join`, `rfind`, `rstrip` and `os.path.dirname`.
- `Host`: the environment and the message log.
- `Lessons`: `Step`, `Lesson` and the functions that specify them.
- `LessonLoader`: `lessonFromYamlFile` over a parsed description.

Two details of the code are easy to miss:
- Locale resolution does not first test whether the name itself exists.
  For each locale it skips that locale when `<locale>/<name>` exists
  relative to the working directory (lessons/lesson.py:62).
- A menu step's description, the default HTML included, is passed through
  the same locale resolution as any other description, because
  `addMenuClickStep` calls `addStep` (lessons/lesson.py:71, 100).

## Model

| member | source | states |
|---|---|---|
| `Lessons.NewStep` | lessons/lesson.py:15-28 | A step holds the fields it is given, and a missing description reads as "". By default it has the always-true end check and step type `AUTOMATEDSTEP` (1); `MANUALSTEP` is 0. |
| `Lessons.Lesson.constructor` | lessons/lesson.py:32-49 | A new lesson has no next lessons and the no-op cleanup. Its description is the resolved file and its style is the stylesheet in a `<style>` element or empty. Its steps are the single "Open project" step when `folder/project.qgs` exists, and none otherwise. |
| `Lessons.InitialStyle` | lessons/lesson.py:42-46 | The style is empty exactly when `folder/style.css` does not exist; otherwise it starts with `<style>` and ends with `</style>`, each on its own line. |
| `Lessons.OpenProjectStep` | lessons/lesson.py:47-49 | The project step is named "Open project", is automated, keeps the always-true end check, and its function is `openProject(folder/project.qgs)` wrapped by `execute`. |
| `Lessons.InitialSteps` | lessons/lesson.py:47-49 | There is at most one initial step, and there is one exactly when the project file exists; it is named "Open project" and carries a function. |
| `Lessons.Lesson.SetCleanup` | lessons/lesson.py:51-52 | The cleanup becomes the given callable, and nothing else changes. |
| `Lessons.Lesson.AddNextLesson` | lessons/lesson.py:54-55 | Exactly one (group, name) pair is appended, duplicates included, and nothing else changes. |
| `Lessons.Usable` | lessons/lesson.py:62-64 | A locale is taken only when `folder/<locale>/f` exists, and only when `<locale>/f` does not exist relative to the working directory. |
| `Lessons.Localized` | lessons/lesson.py:61-66 | A localised path the search returns exists. |
| `Lessons.LocalizedNone` | lessons/lesson.py:61-67 | The search finds nothing exactly when no locale in the list is usable. |
| `Lessons.LocalizedFirst` | lessons/lesson.py:61-66 | When locale k is the first usable one, the search returns `folder/<locale k>/f`; the `break` stops at the first match. |
| `Lessons.ResolvedFile` | lessons/lesson.py:57-67 | None resolves to "". A name resolves either to itself or to a path that exists. |
| `Lessons.ResolvedFileOrder` | lessons/lesson.py:57-67 | The host locale is tried first, then "en". A locale is skipped when `<locale>/f` exists relative to the working directory. An unmatched name is returned unchanged. |
| `Lessons.Lesson.ResolveFile` | lessons/lesson.py:57-67 | The loop with `break` returns exactly the result of the locale search over [host locale, "en"]. |
| `Lessons.Wrapped` | lessons/lesson.py:72-75 | The stored function is absent exactly when none is given; otherwise it is the given function wrapped by `execute`. |
| `Lessons.Lesson.AddStep` | lessons/lesson.py:69-77 | Exactly one step is appended after the existing ones and no other field changes. The step has the resolved description, the wrapped function and the given prestep, signal, checks and step type. |
| `Lessons.ResolveMenu` | lessons/lesson.py:80-89 | An exact menu name wins. Resolution fails exactly when the name is unknown and there are no close matches. A resolved menu is always an entry of the menu table. |
| `Lessons.MenuStepsCases` | lessons/lesson.py:80-100 | Each call yields exactly one step or one warning. An exact match gives the step for that menu. Otherwise the first close match gives a step named after the matched action, whose default description still shows the authored name. Otherwise there is no step and one warning naming the menu. |
| `Lessons.Lesson.AddMenuClickStep` | lessons/lesson.py:79-100 | The steps grow by the menu step when the menu resolves and are unchanged otherwise. The log grows by the one warning exactly when it does not resolve. |
| `Lessons.SignalCheckResult` | lessons/lesson.py:97-98 | Only a `checkMenu` closure gives an answer here, and it accepts a triggered action exactly when that action's text equals the one it was built with. |
| `Lessons.WrongMenuMessage` | lessons/lesson.py:87 | The warning is the fixed sentence "Lesson contains a wrong menu name: " followed by the authored menu name, unchanged. |
| `Lessons.MenuItemName` | lessons/lesson.py:91 | The step name has no ampersand left in it. |
| `Lessons.DefaultMenuDescription` | lessons/lesson.py:92-95 | The default description is the fixed HTML head, then the authored menu path with no slash left in it, then the fixed HTML tail. |
| `Lessons.DefaultMenuDescriptionShowsSegments` | lessons/lesson.py:92-95 | The default description shows the authored menu path's segments separated by " > ". |
| `Lessons.MenuClickStep` | lessons/lesson.py:91-100 | The menu step is named by `MenuItemName` after the resolved action's text, so it has no ampersand. An explicit description is kept and resolved. Without one, the description is the default HTML built from the authored menu name (not the close match), resolved the same way. The step waits for the menu's `triggered` signal, and its check accepts an action exactly when its text is the resolved action's. It has no function, prestep or end check, and it is manual. |
| `Text.Replace` | lessons/lesson.py:91 | Replacing a character by text that does not contain it leaves none of it, and adds no other characters. |
| `Text.ReplaceConcat` | lessons/lesson.py:95 | Replacement distributes over concatenation, so the order of the text is kept. |
| `Text.ReplaceAbsent` | lessons/lesson.py:91 | Text without the pattern character is unchanged. |
| `Text.ReplaceIdempotent` | lessons/lesson.py:91 | Stripping ampersands twice is the same as stripping them once. |
| `Text.ReplaceIsJoinOfSplit` | lessons/lesson.py:95 | `s.replace("/", " > ")` is `" > ".join(s.split("/"))`. |
| `Text.SplitJoinRoundTrip` | lessons/lesson.py:95 | Splitting on a character and joining with it gives back the original text. |
| `Paths.Join` | lessons/lesson.py:62-63 | An absolute last component replaces the path. Otherwise the result is `a + b` or `a + "/" + b`. A slash always separates a non-empty `a` from `b`, and none is added when `a` is empty or already ends in one. |
| `Paths.JoinKeepsComponents` | lessons/lesson.py:62-63 | A joined path ends with its last component and, when that is relative, starts with the first. |
| `Paths.RFind` | lessons/lesson.py:109 | The index is the last occurrence of the character, or -1 when the character is absent. |
| `Paths.RStrip` | lessons/lesson.py:109 | The result is a prefix ending in a character other than the stripped one, and only that character was removed. |
| `Paths.Dirname` | lessons/lesson.py:109 | The dirname is a prefix of the path, and it is empty when the path has no slash. |
| `Paths.DirnameOfJoin` | lessons/lesson.py:109 | The dirname of `folder/file` is `folder`. |
| `LessonLoader.StepEntryError` | lessons/lesson.py:111-120 | A menu entry never fails. Another entry fails exactly when it lacks `name` or `description`, and the key reported is missing from it (`name` is read first). |
| `LessonLoader.LoadError` | lessons/lesson.py:108-124 | Loading raises exactly when `name`, `group`, `description` or `steps` is missing, or some step entry or next-lesson entry lacks a key. |
| `LessonLoader.EntrySteps` | lessons/lesson.py:111-120 | An entry adds at most one step, and every step it adds is manual. A menu entry adds the menu steps for its menu and its description, if it has one. A plain entry adds exactly one step, with its name and its resolved description, no function, prestep, end signal or signal check, and the always-true end check. |
| `LessonLoader.FirstBadStep` | lessons/lesson.py:110-120 | The entries before the index are well formed, and the entry at the index, if any, lacks a key. |
| `LessonLoader.FirstBadStepAt` | lessons/lesson.py:110-120 | Any position with only well-formed entries before it and an ill-formed entry (or the end) at it is the first bad one. |
| `LessonLoader.FirstBadNext` | lessons/lesson.py:122-124 | The same, for next-lesson entries. |
| `LessonLoader.NextEntryError` | lessons/lesson.py:124 | A next-lesson entry is well formed exactly when it has both `group` and `name`. |
| `LessonLoader.NextLessonsFrom` | lessons/lesson.py:122-124 | One pair per entry, in order, each being the entry's (group, name). |
| `LessonLoader.StepsFromNext` | lessons/lesson.py:110-120 | Processing one more entry extends the steps and the warnings by that entry's alone. |
| `LessonLoader.StepsFromCount` | lessons/lesson.py:110-120 | There is one step per plain entry and per resolved menu entry. Each entry yields exactly one step or one warning. |
| `LessonLoader.LessonStepCount` | lessons/lesson.py:105-125 | A loaded lesson has the plain entries plus the resolved menu entries as steps, plus one when the project file exists. |
| `LessonLoader.StepsFromManual` | lessons/lesson.py:117-120 | Every step built from a description is manual. |
| `LessonLoader.StepsFromAppend` | lessons/lesson.py:110-120 | The steps of two entry lists, one after the other, are the first list's steps followed by the second's. |
| `LessonLoader.AddStepEntry` | lessons/lesson.py:111-120 | One entry gives its missing key and adds no step, or it adds its steps (a menu step, nothing, or a manual step). It also logs the menu warning when there is one. |
| `LessonLoader.AddStepEntries` | lessons/lesson.py:110-120 | The loop stops at the first entry that lacks a key and reports that key. The steps and the log hold what the entries before it added, in order. Without an error, the steps are all the entries' steps in order. |
| `LessonLoader.AddNextLessonEntries` | lessons/lesson.py:122-124 | The loop stops at the first entry that lacks a key and reports that key. The next lessons grow by one pair per entry before it, in order; without an error, by one pair per entry. |
| `LessonLoader.LessonFromYamlFile` | lessons/lesson.py:105-125 | Loading fails exactly when a key is missing, and reports the first missing key in reading order. The warnings of the processed entries are logged either way. On success the lesson lives in `dirname(f)` and holds the initial steps followed by the entries' steps, and the next lessons in order. |

## Left out

- `uninstall` (lessons/lesson.py:102-103) deletes a folder on disk; the model has no storage to delete from.
- Reading the YAML file and `yaml.load` (lessons/lesson.py:106-107) are left out. The model starts from the parsed mapping: string values for the keys it reads, plus the `steps` and `nextLessons` lists. A YAML null, a non-string value or a list of the wrong shape is not modelled.
- Reading `style.css` is an oracle, `Env.fileText`. The stylesheet is read as one string, the join of its lines.
- The default folder inferred from the call stack (lessons/lesson.py:33-34) is left out; the folder is always given explicitly.
- `execute`'s catching and reporting of failures, `openProject`, and what a user-supplied callable does are opaque tokens. Nothing here runs a step.
- Similarity scoring in `difflib.get_close_matches` is an oracle. Only whether its list is empty, and its first element, matter.
- Lessons.Lesson.AddMenuClickStep: it requires `Env.Valid()`. Every path `getMenuPaths` lists must resolve through `menuFromName`, and the matcher must return only paths it was given. The case where `menuFromName(closest[0])` itself raises is therefore not modelled.
- Python's dynamic typing is not modelled: a step type other than 0 or 1 is kept as given, and names are strings.
