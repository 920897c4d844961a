# husky-conf: the manifest hook editor

husky-conf is a small command-line tool. It configures husky Git hooks by editing
the project's `package.json`, which this model calls the manifest. Two nested
objects of the manifest are edited:

- `scripts`, which maps npm script names to commands;
- `husky.hooks`, which maps Git hook names to commands.

The tool has four commands:

- `add <hook>` binds one of 18 known Git hooks to an npm script named after the hook with its dashes removed. It also adds a `test` script when the manifest has no `scripts`.
- `remove <hook>` deletes both of those bindings.
- `init` writes a `pre-commit` hook running a `precommit` script, unless `husky` is already configured.
- `version` prints the tool's version.

Each command can also be given by its first letter. Every document written is a copy of the manifest without read-pkg's `_id` member.

The model:

- `document.dfy` (`Document`) is the JSON value the manifest is made of, lodash `omit(pkg, '_id')`, and JavaScript truthiness.
- `hooks.dfy` (`Hooks`) is the hook list, `indexOf`, and `removeDash`. It includes lemmas on what `removeDash` keeps and the table of the 18 script names.
- `editor.dfy` (`Editor`) holds the document transformations of `add`, `remove` and `init` as functions from the manifest read to the report and document written. The lemmas next to them prove:
  - the bindings, and what stays the same;
  - the default `test` script;
  - idempotence and commutation;
  - the add/remove round trip;
  - the shape of the sections.
- `package.dfy` (`PackageEditor`) has the same three operations as methods on a mutable `Package` object. They update its members in place, step by step as the source does (`dotProp.set`, lodash `merge`, `Object.assign`). Each is proved to end in the state the `Editor` function describes.
- `cli.dfy` (`Cli`) holds `setup`:
  - `setup` accepts or rejects the first command-line word;
  - it dispatches to the four commands;
  - it passes on the optional second word.

The model follows the code, including these details that a reader of the tool's usage might not expect:

- `init` writes `precommit: "npm test"`, and it overwrites an existing `precommit` (lodash `merge`); it does not keep the old value.
- `init` stops only when `husky` is JavaScript-truthy, not whenever the key is present. A `husky` member that is `false`, `null`, `0` or `""` is replaced.
- `remove` on a manifest without `scripts` or without `husky.hooks` writes an empty object there, because `omit(undefined, k)` is `{}`.
- The add/remove round trip restores the manifest only when `scripts` and `husky.hooks` already existed as objects and held neither binding. Otherwise the default `test` script or the empty sections stay behind, or a binding that was already there is gone (`AddThenRemove` for the one direction, `AddThenRemoveOnlyWhen` for the other, `AddThenRemoveKeepsDefaultTest`).

## Model

| member | source | states |
|---|---|---|
| Document.OmitId | husky-conf.js:143-151 | the written copy has no `_id` and keeps every other member with its value, adding none |
| Document.Truthy | husky-conf.js:203-204 | the falsy JSON values are exactly `null`, `false`, `0` and `""`; used by Editor.Init, Editor.InitTwice and PackageEditor.Package.Init |
| Document.FieldsOf | husky-conf.js:146-149 | the members lodash `merge` and `omit` see in their target: those of an object, none for `undefined` (and for any other non-object, see "## Left out") |
| Hooks.IndexOf | husky-conf.js:131 | -1 exactly when the value is not in the list; otherwise a position holding the value with no earlier occurrence |
| Hooks.RemoveDash | husky-conf.js:101-103 | the result contains no '-' |
| Hooks.RemoveDashAppend | husky-conf.js:101-103 | removing dashes distributes over concatenation, so the kept characters stay in their original order |
| Hooks.RemoveDashKeepsOthers | husky-conf.js:101-103 | every character other than '-' occurs in the result exactly as often as in the input |
| Hooks.RemoveDashKeeps | husky-conf.js:101-103 | a string without dashes is returned unchanged |
| Hooks.RemoveDashIdempotent | husky-conf.js:101-103 | removing dashes twice is the same as once |
| Hooks.ScriptKeyAt | husky-conf.js:23-42 | the script name of each of the 18 hooks, position by position (e.g. `pre-auto-gc` gives `preautogc`) |
| Hooks.ScriptKeyInjective | husky-conf.js:23-42 | two known hooks with the same script name are the same hook |
| Hooks.ScriptKeyNotTest | husky-conf.js:23-42 | no known hook has the script name `test` |
| Editor.ScriptsOf | husky-conf.js:146 | the members of `dotProp.get(pkg, 'scripts')` when it is an object, and none otherwise |
| Editor.HuskyOf | husky-conf.js:149 | the members of `pkg.husky` when it is an object, and none otherwise |
| Editor.HooksValue | husky-conf.js:177 | `dotProp.get(pkg, 'husky.hooks')` is defined exactly when `husky` is an object with a `hooks` member, and is then that member |
| Editor.HooksOf | husky-conf.js:177 | the members of `husky.hooks` when it is defined and an object, and none otherwise |
| Editor.HookCommand | husky-conf.js:139 | the hook's command is `npm run ` followed by its script name, which has no dash; see Editor.AddBindsHook and Editor.InitUsesAddNaming |
| Editor.SetHooks | husky-conf.js:149 | `dotProp.set(pkg, 'husky.hooks', v)`: `husky.hooks` becomes `v`, `husky` an object; every other top-level member and every other member of `husky` is kept |
| Editor.AddedScripts | husky-conf.js:146-148 | the `scripts` object `add` stores: the new script is `npm run test`; its keys are the old ones plus the new one, plus `test` when `scripts` was absent; other values are kept (see Editor.AddKeepsScripts, Editor.AddDefaultTest) |
| Editor.AddedHooks | husky-conf.js:149 | the `husky.hooks` object `add` stores: the new hook's command; its keys are the old ones plus the hook; other values are kept (see Editor.AddKeepsHooks) |
| Editor.AddEdits | husky-conf.js:145-149 | the object after `add`'s in-place edits: `scripts` is AddedScripts, `husky.hooks` is AddedHooks, and the only members added are the two sections (see Editor.AddEditsIdempotent, Editor.AddEditsCommute) |
| Editor.AddedDocument | husky-conf.js:143-151 | the document `add` writes: no `_id`, the members read plus the two sections, and both sections as `add` stores them (see Editor.AddIdempotent, Editor.AddCommutes, Editor.AddThenRemove) |
| Editor.Add | husky-conf.js:130-152 | "Invalid hook" exactly when the hook is not one of the 18; otherwise the written document is the edited manifest without `_id` |
| Editor.AddBindsHook | husky-conf.js:138-149 | after `add(h)`, `scripts[removeDash(h)]` is `npm run test` and `husky.hooks[h]` is `npm run <removeDash(h)>` |
| Editor.AddKeepsScripts | husky-conf.js:146-148 | `scripts` gains exactly the new script, plus `test` when it was absent; every other script keeps its value |
| Editor.AddKeepsHooks | husky-conf.js:149 | `husky.hooks` gains exactly the new hook; other bindings and other members of `husky` keep their values |
| Editor.AddKeepsOtherMembers | husky-conf.js:143-151 | every top-level member other than `scripts`, `husky` and `_id` is unchanged |
| Editor.AddDefaultTest | husky-conf.js:146-148 | without `scripts`, the written scripts are exactly the default `test` and the new one; with `scripts`, `test` is present afterwards iff it was before, with the same value |
| Editor.AddIdempotent | husky-conf.js:138-149 | adding a hook to the document written by adding it writes the same document |
| Editor.AddCommutes | husky-conf.js:138-149 | adding two hooks in either order writes the same document |
| Editor.AddEditsIdempotent | husky-conf.js:145-149 | the in-place edits of `add` applied twice leave the object as applying them once does |
| Editor.AddEditsCommute | husky-conf.js:145-149 | the in-place edits of `add` for two hooks commute |
| Editor.AddedDocumentParts | husky-conf.js:143-151 | dropping `_id` before or after the in-place edits of `add` gives the same document |
| Editor.RemoveEdits | husky-conf.js:170-186 | the object after `remove`'s in-place edits: both sections are the `omit` copies without the hook and its script name (see Editor.RemoveEditsIdempotent, Editor.RemoveEditsUndoesAdd) |
| Editor.RemovedDocument | husky-conf.js:168-188 | the document `remove` writes: no `_id`, the members read plus the two sections, with exactly the hook and its script name deleted (see Editor.RemoveDeletesExactly, Editor.RemoveIdempotent) |
| Editor.Remove | husky-conf.js:164-188 | "Invalid hook" exactly when the hook is not one of the 18; otherwise the written document is the edited manifest without `_id` |
| Editor.RemoveDeletesExactly | husky-conf.js:168-186 | both sections are written as objects; exactly `husky.hooks[h]` and `scripts[removeDash(h)]` are gone; every other entry and every other member of `husky` keeps its value |
| Editor.RemoveKeepsOtherMembers | husky-conf.js:168-188 | every top-level member other than `scripts`, `husky` and `_id` is unchanged |
| Editor.RemoveFromBareManifest | husky-conf.js:173-186 | without both sections, `remove` writes `scripts: {}` and `husky: {hooks: {}}` |
| Editor.RemovedDocumentParts | husky-conf.js:168-188 | dropping `_id` before or after the in-place edits of `remove` gives the same document |
| Editor.RemoveEditsIdempotent | husky-conf.js:170-186 | the in-place edits of `remove` applied twice leave the object as applying them once does |
| Editor.RemoveIdempotent | husky-conf.js:168-188 | removing a hook from the document written by removing it writes the same document |
| Editor.RemoveEditsUndoesAdd | husky-conf.js:138-186 | on an object whose sections exist without the hook's bindings, `remove`'s edits undo `add`'s |
| Editor.AddThenRemove | husky-conf.js:138-188 | with both sections present and neither binding there, `remove(h)` after `add(h)` writes the manifest as read, less `_id` |
| Editor.AddThenRemoveOnlyWhen | husky-conf.js:138-188 | conversely, when `remove(h)` after `add(h)` writes back the manifest as read less `_id`, both sections were objects holding neither binding |
| Editor.AddThenRemoveKeepsDefaultTest | husky-conf.js:146-148 | without `scripts`, `remove(h)` after `add(h)` leaves exactly the default `test` script |
| Editor.RemoveKeepsOtherHook | husky-conf.js:173-186 | removing one known hook keeps both bindings `add` wrote for a different known hook |
| Editor.InitScripts | husky-conf.js:207-215 | the `scripts` object `init` stores: `precommit` is `npm test`; without `scripts` it is exactly the default `test` and `precommit`; with `scripts`, every other script is kept |
| Editor.InitEdits | husky-conf.js:219-228 | the object after `init`'s `Object.assign`: `scripts` is InitScripts and `husky` is exactly `{hooks: {"pre-commit": "npm run precommit"}}` |
| Editor.InitDocument | husky-conf.js:217-229 | the document `init` writes: no `_id`, the members read plus the two sections, both as `init` stores them (see Editor.InitWrites, Editor.InitTwice) |
| Editor.Init | husky-conf.js:201-229 | "Husky already exists" exactly when `husky` is truthy; otherwise the document written is the edited manifest without `_id` |
| Editor.InitWrites | husky-conf.js:207-229 | the written `husky` is exactly `{hooks: {"pre-commit": "npm run precommit"}}`; without `scripts` the scripts are exactly the default `test` and `precommit: "npm test"`; with `scripts`, `precommit` is (over)written and every other script is kept; other members are unchanged |
| Editor.InitTwice | husky-conf.js:203-205 | running `init` on the document `init` wrote reports that husky exists |
| Editor.InitUsesAddNaming | husky-conf.js:223-225 | `pre-commit` is a known hook, its script name is `precommit`, and its command is the one `add` would write |
| Editor.AddSectioned | husky-conf.js:145-149 | from a manifest whose present sections are objects of strings, `add` writes both sections as objects of strings |
| Editor.RemoveSectioned | husky-conf.js:173-186 | the same for `remove` |
| Editor.InitSectioned | husky-conf.js:219-229 | the same for `init` |
| PackageEditor.Package.constructor | husky-conf.js:134 | the object holds the manifest as read |
| PackageEditor.Package.SetScripts | husky-conf.js:146 | `dotProp.set(pkg, 'scripts', v)` replaces only `scripts` |
| PackageEditor.Package.SetHuskyHooks | husky-conf.js:149 | `dotProp.set(pkg, 'husky.hooks', v)` replaces only `husky.hooks`, turning a non-object `husky` into an object |
| PackageEditor.Package.WriteCopy | husky-conf.js:143-151 | the copy handed to write-pkg has no `_id` and agrees with the object on every other member |
| PackageEditor.Package.AddEntries | husky-conf.js:145-149 | setting `scripts` and then `husky.hooks` in place leaves the object in the state Editor.AddEdits describes |
| PackageEditor.Package.Add | husky-conf.js:130-152 | the report is `Editor.Add`'s; an unknown hook leaves the object unchanged; otherwise the object ends in `add`'s edited state and the copy written is that state without `_id` |
| PackageEditor.Package.Remove | husky-conf.js:164-188 | the report is `Editor.Remove`'s; an unknown hook leaves the object unchanged; otherwise the object ends in `remove`'s edited state and the copy written is that state without `_id` |
| PackageEditor.Package.Init | husky-conf.js:201-229 | the report is `Editor.Init`'s; a truthy `husky` leaves the object unchanged; otherwise the object ends in `init`'s assigned state |
| Cli.ParseCommand | husky-conf.js:242-263 | a word is rejected exactly when it is neither a command nor an alias; an accepted word selects the command it names |
| Cli.ParseCommandExact | husky-conf.js:242-263 | a command is selected by its name or its alias and by no other word |
| Cli.AliasesAreInitials | husky-conf.js:20-21 | the two lists are parallel and each alias is the first letter of its command |
| Cli.NameAndAliasSelect | husky-conf.js:242-263 | the name and the alias of each command select that command |
| Cli.AddValue | husky-conf.js:253-255 | `add` with the second word: "Invalid hook" exactly when it is missing (`undefined`) or not one of the 18; otherwise `add`'s document is written |
| Cli.RemoveValue | husky-conf.js:251-252 | `remove` with the second word: "Invalid hook" exactly when it is missing or not one of the 18; otherwise `remove`'s document is written |
| Cli.Setup | husky-conf.js:241-267 | "Command not valid" exactly when the word is rejected; a failed install is reported only when husky is neither installed nor installable |
| Cli.SetupNeverWritesId | husky-conf.js:241-267 | no document `setup` writes has an `_id` member |
| Cli.SetupWrites | husky-conf.js:241-267 | `setup` writes only for `init`, or for `add`/`remove` with a known hook, and what it writes is that operation's document |
| Cli.SetupDispatches | husky-conf.js:243-263 | each accepted word runs its command: `version` shows the version; `init` runs `init` once husky is available; `add` and `remove` write their document for a known hook and report any other value |
| Cli.SetupRejectsHook | husky-conf.js:251-260 | `add` (with husky available) and `remove` with a missing or unknown hook report "Invalid hook" |

## Left out

- File I/O is not modelled. The manifest read by read-pkg and the document handed to write-pkg are a parameter and a result. read-pkg's normalisation of `package.json`, apart from the `_id` member it adds, is not modelled.
- Installation of husky (`pkg-dep`, `npm-install-package`) is not modelled. Whether husky is installed, and whether installing it succeeds, are parameters of `Cli.Setup`. A successful install may itself change `package.json`; the `pkg` of `Cli.Setup` is the manifest as `init` or `add` reads it, after any install.
- Output is not modelled: spinners, colours, log symbols, the update notifier and the success messages. Only the one-line reports are kept, as `Report` values.
- `version` reads the tool's own `package.json`. It is modelled only as the `ShowVersion` report.
- Promise ordering is not modelled. For example, `remove`'s success message hangs off the read rather than off the write.
- The meow argument parsing, its help text and flags, and the "Specify at least one path" exit are not modelled. The first two words of the command line are inputs of `Cli.Setup`.
- Member order in JSON objects is not modelled: objects are maps.
- JavaScript strings are sequences of UTF-16 code units and may hold a lone surrogate. Dafny's `string` holds Unicode scalar values, so such keys and values are not modelled. No property here depends on them.
- Non-object sections: a `scripts` or `husky.hooks` member that is present but not an object is read as an empty object. For each kind of value:
  - `null`: this is exact in every operation.
  - Numbers and booleans: this is exact for `remove`, because lodash `omit` copies no keys from them. It is not exact for `merge` in `add` and `init`: `merge` returns the value's wrapper object with the new entry, and that object is written back as the bare number or boolean.
  - Strings and arrays: `omit` in `remove` copies their index keys into the new object. `merge` in `add` and `init` keeps the string or array, and it is written without the new entry.
- An array `husky`: `dotProp.set` would keep it and set a property on it. The model replaces it by an object.
- Editor.AddSectioned, Editor.RemoveSectioned, Editor.InitSectioned: stated only for manifests whose present sections are objects of strings, because of the non-object case above.
- Lodash `merge` in general is not modelled. Its effect on objects of strings is that an entry is set; on the document itself, `merge(pkg, pkg, pkg)` is a no-op after the `dotProp.set` calls.
