/**
 * The manifest hook editor: the document transformations performed by
 * `add`, `remove` and `init` of HuskyConf, each from the document read-pkg
 * returned to the report printed and the document handed to write-pkg.
 *
 * Two nested objects are edited: `scripts` (script name to command) and
 * `husky.hooks` (hook name to command). A present value of either that is not
 * an object is read as an empty object, as lodash does with `undefined` and `null`.
 */
module Editor {
  import opened Document
  import opened Hooks

  const ScriptsKey := "scripts"
  const HuskyKey := "husky"
  const HooksKey := "hooks"
  const TestKey := "test"
  /** The `test` script npm puts into a fresh package.json. */
  const DefaultTest := "echo 'Error: no test specified' && exit 1"
  /** The script `add` binds to every hook's script name. */
  const AddedScript := "npm run test"
  /** The script and hook binding `init` writes. */
  const PrecommitKey := "precommit"
  const PrecommitScript := "npm test"
  const PreCommitHook := "pre-commit"
  const PreCommitCommand := "npm run precommit"

  /** What one invocation ends in: the document written, or the one line reported instead. */
  datatype Report =
    | Written(doc: Manifest)  // write-pkg is called with doc
    | InvalidHook             // "Invalid hook"
    | HuskyExists             // "Husky already exists"
    | CommandNotValid         // "Command not valid"
    | InstallFailed           // installing husky failed, nothing is read or written
    | ShowVersion             // the version of husky-conf itself is printed

  /** The command of a hook binding: `npm run <script name>`. */
  function HookCommand(hook: string): (r: string)
    ensures |r| == 8 + |RemoveDash(hook)| && r[..8] == "npm run "
    ensures r[8..] == RemoveDash(hook) && '-' !in r[8..]
  {
    "npm run " + RemoveDash(hook)
  }

  // ----- reading the two sections -------------------------------------------------

  /** The members of `pkg.scripts`. */
  function ScriptsOf(pkg: Manifest): (r: map<string, Json>)
    ensures ScriptsKey in pkg && pkg[ScriptsKey].JObject? ==> r == pkg[ScriptsKey].fields
    ensures !(ScriptsKey in pkg && pkg[ScriptsKey].JObject?) ==> r == map[]
  {
    FieldsOf(Lookup(pkg, ScriptsKey))
  }

  /** The members of `pkg.husky`. */
  function HuskyOf(pkg: Manifest): (r: map<string, Json>)
    ensures HuskyKey in pkg && pkg[HuskyKey].JObject? ==> r == pkg[HuskyKey].fields
    ensures !(HuskyKey in pkg && pkg[HuskyKey].JObject?) ==> r == map[]
  {
    FieldsOf(Lookup(pkg, HuskyKey))
  }

  /** `dotProp.get(pkg, 'husky.hooks')`. */
  function HooksValue(pkg: Manifest): (r: Option<Json>)
    ensures r.Some? <==> HuskyKey in pkg && pkg[HuskyKey].JObject? && HooksKey in pkg[HuskyKey].fields
    ensures r.Some? ==> r.value == pkg[HuskyKey].fields[HooksKey]
  {
    Lookup(HuskyOf(pkg), HooksKey)
  }

  /** The members of `pkg.husky.hooks`. */
  function HooksOf(pkg: Manifest): (r: map<string, Json>)
    ensures HooksValue(pkg).Some? && HooksValue(pkg).value.JObject? ==> r == HooksValue(pkg).value.fields
    ensures !(HooksValue(pkg).Some? && HooksValue(pkg).value.JObject?) ==> r == map[]
  {
    FieldsOf(HooksValue(pkg))
  }

  /** `dotProp.set(pkg, 'husky.hooks', hooks)`: a `husky` that is not an object becomes one. */
  function SetHooks(pkg: Manifest, hooks: map<string, Json>): (r: Manifest)
    ensures HuskyKey in r && r[HuskyKey].JObject? && HooksValue(r) == Some(JObject(hooks))
    ensures r.Keys == pkg.Keys + {HuskyKey}
    ensures forall k :: k in pkg && k != HuskyKey ==> r[k] == pkg[k]
    ensures forall k :: k != HooksKey ==> Lookup(HuskyOf(r), k) == Lookup(HuskyOf(pkg), k)
  {
    pkg[HuskyKey := JObject(HuskyOf(pkg)[HooksKey := JObject(hooks)])]
  }

  /**
   * Both sections are present objects whose members are all strings, the shape in
   * which every result of this editor leaves them.
   */
  predicate Sectioned(pkg: Manifest)
  {
    && ScriptsKey in pkg && pkg[ScriptsKey].JObject? && StringMembers(pkg[ScriptsKey].fields)
    && HuskyKey in pkg && pkg[HuskyKey].JObject?
    && HooksValue(pkg).Some? && HooksValue(pkg).value.JObject?
    && StringMembers(HooksValue(pkg).value.fields)
  }

  /** Whatever of the two sections is present is an object of strings. */
  predicate WellFormed(pkg: Manifest)
  {
    && (ScriptsKey in pkg ==> pkg[ScriptsKey].JObject? && StringMembers(pkg[ScriptsKey].fields))
    && (HooksValue(pkg).Some? ==> HooksValue(pkg).value.JObject? && StringMembers(HooksValue(pkg).value.fields))
  }

  /** Top-level members other than `scripts`, `husky` and `_id` are the same in both documents. */
  ghost predicate SameOtherMembers(pkg: Manifest, out: Manifest)
  {
    forall k :: k != ScriptsKey && k != HuskyKey && k != IdKey ==>
      (k in out <==> k in pkg) && (k in pkg ==> out[k] == pkg[k])
  }

  // ----- add ------------------------------------------------------------------------

  /** The `scripts` object `add` stores: the merge of `{<script name>: 'npm run test'}`. */
  function AddedScripts(pkg: Manifest, hook: string): (r: map<string, Json>)
    ensures RemoveDash(hook) in r && r[RemoveDash(hook)] == JString(AddedScript)
    ensures r.Keys == ScriptsOf(pkg).Keys + {RemoveDash(hook)} + (if ScriptsKey in pkg then {} else {TestKey})
    ensures forall k :: k in ScriptsOf(pkg) && k != RemoveDash(hook) ==> r[k] == ScriptsOf(pkg)[k]
  {
    var entry := JString(AddedScript);
    if ScriptsKey in pkg then ScriptsOf(pkg)[RemoveDash(hook) := entry]
    else map[TestKey := JString(DefaultTest)][RemoveDash(hook) := entry]
  }

  /** The `husky.hooks` object `add` stores: the merge of `{<hook>: 'npm run <script name>'}`. */
  function AddedHooks(pkg: Manifest, hook: string): (r: map<string, Json>)
    ensures hook in r && r[hook] == JString(HookCommand(hook))
    ensures r.Keys == HooksOf(pkg).Keys + {hook}
    ensures forall k :: k in HooksOf(pkg) && k != hook ==> r[k] == HooksOf(pkg)[k]
  {
    var entry := JString(HookCommand(hook));
    if HuskyKey in pkg then HooksOf(pkg)[hook := entry]
    else map[hook := entry]
  }

  /** The in-memory document after `add` has updated it in place (still carrying `_id`). */
  function AddEdits(pkg: Manifest, hook: string): (r: Manifest)
    ensures ScriptsKey in r && r[ScriptsKey] == JObject(AddedScripts(pkg, hook))
    ensures HooksValue(r) == Some(JObject(AddedHooks(pkg, hook)))
    ensures r.Keys == pkg.Keys + {ScriptsKey, HuskyKey}
  {
    SetHooks(pkg[ScriptsKey := JObject(AddedScripts(pkg, hook))], AddedHooks(pkg, hook))
  }

  /** The document `add(hook)` hands to write-pkg once the hook has passed the check. */
  function AddedDocument(pkg: Manifest, hook: string): (r: Manifest)
    ensures IdKey !in r && r.Keys == pkg.Keys + {ScriptsKey, HuskyKey} - {IdKey}
    ensures ScriptsOf(r) == AddedScripts(pkg, hook) && HooksOf(r) == AddedHooks(pkg, hook)
  {
    OmitId(AddEdits(pkg, hook))
  }

  /** `add(hook)`: reject an unknown hook, otherwise write both bindings. */
  function Add(pkg: Manifest, hook: string): (r: Report)
    ensures r.InvalidHook? <==> hook !in HookNames
    ensures r.InvalidHook? || r.Written?
    ensures r.Written? ==> IdKey !in r.doc && r.doc == AddedDocument(pkg, hook)
  {
    if IndexOf(HookNames, hook) < 0 then InvalidHook
    else Written(AddedDocument(pkg, hook))
  }

  /** Dropping `_id` at the write commutes with the in-place edits, which never touch it. */
  lemma AddedDocumentParts(pkg: Manifest, hook: string)
    ensures AddedDocument(pkg, hook) == AddEdits(OmitId(pkg), hook)
  {
    var p0 := OmitId(pkg);
    assert AddedScripts(p0, hook) == AddedScripts(pkg, hook);
    assert AddedHooks(p0, hook) == AddedHooks(pkg, hook);
    var s := JObject(AddedScripts(pkg, hook));
    var h := JObject(HuskyOf(pkg)[HooksKey := JObject(AddedHooks(pkg, hook))]);
    assert AddEdits(pkg, hook) == pkg[ScriptsKey := s][HuskyKey := h];
    OmitIdUpdate(pkg[ScriptsKey := s], HuskyKey, h);
    OmitIdUpdate(pkg, ScriptsKey, s);
  }

  /** After `add(hook)` the hook runs its script and the script runs the tests. */
  lemma AddBindsHook(pkg: Manifest, hook: string)
    ensures var out := AddedDocument(pkg, hook);
      && ScriptsKey in out && out[ScriptsKey].JObject?
      && ScriptsOf(out)[RemoveDash(hook)] == JString("npm run test")
      && HooksValue(out).Some? && HooksValue(out).value.JObject?
      && HooksOf(out)[hook] == JString("npm run " + RemoveDash(hook))
  {
  }

  /** `add(hook)` keeps every other script; it adds `test` only to a manifest without `scripts`. */
  lemma AddKeepsScripts(pkg: Manifest, hook: string)
    ensures var out := AddedDocument(pkg, hook);
      && ScriptsOf(out).Keys == ScriptsOf(pkg).Keys + {RemoveDash(hook)} + (if ScriptsKey in pkg then {} else {TestKey})
      && (forall k :: k in ScriptsOf(pkg) && k != RemoveDash(hook) ==> ScriptsOf(out)[k] == ScriptsOf(pkg)[k])
  {
  }

  /** `add(hook)` keeps every other hook binding and every other member of `husky`. */
  lemma AddKeepsHooks(pkg: Manifest, hook: string)
    ensures var out := AddedDocument(pkg, hook);
      && HooksOf(out).Keys == HooksOf(pkg).Keys + {hook}
      && (forall k :: k in HooksOf(pkg) && k != hook ==> HooksOf(out)[k] == HooksOf(pkg)[k])
      && (forall k :: k != HooksKey ==> (k in HuskyOf(out) <==> k in HuskyOf(pkg)))
      && (forall k :: k != HooksKey && k in HuskyOf(pkg) ==> HuskyOf(out)[k] == HuskyOf(pkg)[k])
  {
  }

  /** `add(hook)` leaves every top-level member other than the two sections and `_id` alone. */
  lemma AddKeepsOtherMembers(pkg: Manifest, hook: string)
    ensures SameOtherMembers(pkg, AddedDocument(pkg, hook))
  {
  }

  /**
   * The default `test` script is written exactly when `scripts` was absent; an
   * existing `scripts` keeps its `test` entry, or its lack of one.
   */
  lemma AddDefaultTest(pkg: Manifest, hook: string)
    requires hook in HookNames
    ensures var scripts := ScriptsOf(AddedDocument(pkg, hook));
      && (ScriptsKey !in pkg ==> scripts == map[TestKey := JString(DefaultTest), RemoveDash(hook) := JString(AddedScript)])
      && (ScriptsKey in pkg ==> (TestKey in scripts <==> TestKey in ScriptsOf(pkg)))
      && (ScriptsKey in pkg && TestKey in scripts ==> scripts[TestKey] == ScriptsOf(pkg)[TestKey])
  {
    ScriptKeyNotTest(hook);
  }

  lemma AddEditsIdempotent(p: Manifest, hook: string)
    ensures AddEdits(AddEdits(p, hook), hook) == AddEdits(p, hook)
  {
    var q := AddEdits(p, hook);
    UpdateSame(AddedScripts(p, hook), RemoveDash(hook), JString(AddedScript));
    assert AddedScripts(q, hook) == AddedScripts(p, hook);
    UpdateSame(AddedHooks(p, hook), hook, JString(HookCommand(hook)));
    assert AddedHooks(q, hook) == AddedHooks(p, hook);
    UpdateSame(q, ScriptsKey, q[ScriptsKey]);
    var husky := HuskyOf(q);
    UpdateSame(husky, HooksKey, husky[HooksKey]);
    UpdateSame(q, HuskyKey, q[HuskyKey]);
  }

  /** Adding the same hook twice writes the same document as adding it once. */
  lemma AddIdempotent(pkg: Manifest, hook: string)
    ensures AddedDocument(AddedDocument(pkg, hook), hook) == AddedDocument(pkg, hook)
  {
    var once := AddedDocument(pkg, hook);
    AddedDocumentParts(pkg, hook);
    AddedDocumentParts(once, hook);
    OmitIdNoop(once);
    AddEditsIdempotent(OmitId(pkg), hook);
  }

  lemma AddedScriptsCommute(p: Manifest, h1: string, h2: string)
    ensures AddedScripts(AddEdits(p, h1), h2) == AddedScripts(AddEdits(p, h2), h1)
  {
    var e := JString(AddedScript);
    var base := if ScriptsKey in p then ScriptsOf(p) else map[TestKey := JString(DefaultTest)];
    UpdateCommutes(base, RemoveDash(h1), e, RemoveDash(h2), e);
  }

  lemma AddedHooksCommute(p: Manifest, h1: string, h2: string)
    requires h1 != h2
    ensures AddedHooks(AddEdits(p, h1), h2) == AddedHooks(AddEdits(p, h2), h1)
  {
    var base := if HuskyKey in p then HooksOf(p) else map[];
    UpdateCommutes(base, h1, JString(HookCommand(h1)), h2, JString(HookCommand(h2)));
  }

  /** A second `add` overwrites both sections the first one wrote. */
  lemma AddEditsTwice(p: Manifest, h1: string, h2: string)
    ensures var q := AddEdits(p, h1);
      AddEdits(q, h2)
        == p[ScriptsKey := JObject(AddedScripts(q, h2))]
            [HuskyKey := JObject(HuskyOf(p)[HooksKey := JObject(AddedHooks(q, h2))])]
  {
    var q := AddEdits(p, h1);
    var s1, s2 := JObject(AddedScripts(p, h1)), JObject(AddedScripts(q, h2));
    var husky1 := JObject(HuskyOf(p)[HooksKey := JObject(AddedHooks(p, h1))]);
    var husky2 := JObject(HuskyOf(p)[HooksKey := JObject(AddedHooks(q, h2))]);
    assert q == p[ScriptsKey := s1][HuskyKey := husky1];
    assert HuskyOf(q[ScriptsKey := s2]) == HuskyOf(p)[HooksKey := JObject(AddedHooks(p, h1))];
    UpdateOverrides(HuskyOf(p), HooksKey, JObject(AddedHooks(p, h1)), JObject(AddedHooks(q, h2)));
    assert AddEdits(q, h2) == q[ScriptsKey := s2][HuskyKey := husky2];
    UpdateBothOverride(p, ScriptsKey, s1, HuskyKey, husky1, s2, husky2);
  }

  lemma AddEditsCommute(p: Manifest, h1: string, h2: string)
    ensures AddEdits(AddEdits(p, h1), h2) == AddEdits(AddEdits(p, h2), h1)
  {
    if h1 != h2 {
      AddedScriptsCommute(p, h1, h2);
      AddedHooksCommute(p, h1, h2);
      AddEditsTwice(p, h1, h2);
      AddEditsTwice(p, h2, h1);
    }
  }

  /** Adding two hooks gives the same document in either order. */
  lemma AddCommutes(pkg: Manifest, h1: string, h2: string)
    ensures AddedDocument(AddedDocument(pkg, h1), h2) == AddedDocument(AddedDocument(pkg, h2), h1)
  {
    var a, b := AddedDocument(pkg, h1), AddedDocument(pkg, h2);
    AddedDocumentParts(pkg, h1);
    AddedDocumentParts(pkg, h2);
    AddedDocumentParts(a, h2);
    AddedDocumentParts(b, h1);
    OmitIdNoop(a);
    OmitIdNoop(b);
    AddEditsCommute(OmitId(pkg), h1, h2);
  }

  // ----- remove ---------------------------------------------------------------------

  /**
   * The in-memory document after `remove` has updated it in place: both sections are
   * replaced by lodash `omit` copies without the hook and its script name.
   */
  function RemoveEdits(pkg: Manifest, hook: string): (r: Manifest)
    ensures ScriptsKey in r && r[ScriptsKey] == JObject(ScriptsOf(pkg) - {RemoveDash(hook)})
    ensures HooksValue(r) == Some(JObject(HooksOf(pkg) - {hook}))
    ensures r.Keys == pkg.Keys + {ScriptsKey, HuskyKey}
  {
    var withHooks := SetHooks(pkg, HooksOf(pkg) - {hook});
    withHooks[ScriptsKey := JObject(ScriptsOf(withHooks) - {RemoveDash(hook)})]
  }

  /** The document `remove(hook)` hands to write-pkg once the hook has passed the check. */
  function RemovedDocument(pkg: Manifest, hook: string): (r: Manifest)
    ensures IdKey !in r && r.Keys == pkg.Keys + {ScriptsKey, HuskyKey} - {IdKey}
    ensures ScriptsOf(r) == ScriptsOf(pkg) - {RemoveDash(hook)} && HooksOf(r) == HooksOf(pkg) - {hook}
  {
    OmitId(RemoveEdits(pkg, hook))
  }

  /** `remove(hook)`: reject an unknown hook, otherwise delete both bindings. */
  function Remove(pkg: Manifest, hook: string): (r: Report)
    ensures r.InvalidHook? <==> hook !in HookNames
    ensures r.InvalidHook? || r.Written?
    ensures r.Written? ==> IdKey !in r.doc && r.doc == RemovedDocument(pkg, hook)
  {
    if IndexOf(HookNames, hook) < 0 then InvalidHook
    else Written(RemovedDocument(pkg, hook))
  }

  lemma RemovedDocumentParts(pkg: Manifest, hook: string)
    ensures RemovedDocument(pkg, hook) == RemoveEdits(OmitId(pkg), hook)
  {
    var p0 := OmitId(pkg);
    var h := JObject(HuskyOf(pkg)[HooksKey := JObject(HooksOf(pkg) - {hook})]);
    var s := JObject(ScriptsOf(pkg) - {RemoveDash(hook)});
    assert RemoveEdits(pkg, hook) == pkg[HuskyKey := h][ScriptsKey := s];
    assert RemoveEdits(p0, hook) == p0[HuskyKey := h][ScriptsKey := s];
    OmitIdUpdate(pkg[HuskyKey := h], ScriptsKey, s);
    OmitIdUpdate(pkg, HuskyKey, h);
  }

  /**
   * `remove(hook)` deletes exactly `husky.hooks[hook]` and `scripts[<script name>]`;
   * every other entry of both sections and every other member of `husky` stays. A
   * missing section comes back as an empty object.
   */
  lemma RemoveDeletesExactly(pkg: Manifest, hook: string)
    ensures var out := RemovedDocument(pkg, hook);
      && ScriptsKey in out && out[ScriptsKey].JObject?
      && HooksValue(out).Some? && HooksValue(out).value.JObject?
      && ScriptsOf(out).Keys == ScriptsOf(pkg).Keys - {RemoveDash(hook)}
      && (forall k :: k in ScriptsOf(out) ==> ScriptsOf(out)[k] == ScriptsOf(pkg)[k])
      && HooksOf(out).Keys == HooksOf(pkg).Keys - {hook}
      && (forall k :: k in HooksOf(out) ==> HooksOf(out)[k] == HooksOf(pkg)[k])
      && (forall k :: k != HooksKey ==> (k in HuskyOf(out) <==> k in HuskyOf(pkg)))
      && (forall k :: k != HooksKey && k in HuskyOf(pkg) ==> HuskyOf(out)[k] == HuskyOf(pkg)[k])
  {
  }

  /** `remove(hook)` leaves every top-level member other than the two sections and `_id` alone. */
  lemma RemoveKeepsOtherMembers(pkg: Manifest, hook: string)
    ensures SameOtherMembers(pkg, RemovedDocument(pkg, hook))
  {
  }

  /** On a manifest without `scripts` or `husky`, `remove` leaves empty objects there. */
  lemma RemoveFromBareManifest(pkg: Manifest, hook: string)
    requires ScriptsKey !in pkg && HuskyKey !in pkg
    ensures RemovedDocument(pkg, hook)
         == OmitId(pkg)[HuskyKey := JObject(map[HooksKey := JObject(map[])])][ScriptsKey := JObject(map[])]
  {
    RemovedDocumentParts(pkg, hook);
  }

  lemma RemoveEditsIdempotent(p: Manifest, hook: string)
    ensures RemoveEdits(RemoveEdits(p, hook), hook) == RemoveEdits(p, hook)
  {
    var q := RemoveEdits(p, hook);
    assert HooksOf(q) - {hook} == HooksOf(q);
    assert ScriptsOf(q) - {RemoveDash(hook)} == ScriptsOf(q);
    var husky := HuskyOf(q);
    UpdateSame(husky, HooksKey, husky[HooksKey]);
    UpdateSame(q, HuskyKey, q[HuskyKey]);
    UpdateSame(q, ScriptsKey, q[ScriptsKey]);
  }

  /** Removing the same hook twice writes the same document as removing it once. */
  lemma RemoveIdempotent(pkg: Manifest, hook: string)
    ensures RemovedDocument(RemovedDocument(pkg, hook), hook) == RemovedDocument(pkg, hook)
  {
    var once := RemovedDocument(pkg, hook);
    RemovedDocumentParts(pkg, hook);
    RemovedDocumentParts(once, hook);
    OmitIdNoop(once);
    RemoveEditsIdempotent(OmitId(pkg), hook);
  }

  /** Both sections present as objects, neither holding a binding for `hook`. */
  predicate Unbound(pkg: Manifest, hook: string)
  {
    && ScriptsKey in pkg && pkg[ScriptsKey].JObject? && RemoveDash(hook) !in ScriptsOf(pkg)
    && HuskyKey in pkg && pkg[HuskyKey].JObject?
    && HooksValue(pkg).Some? && HooksValue(pkg).value.JObject? && hook !in HooksOf(pkg)
  }

  lemma RemoveEditsUndoesAdd(p: Manifest, hook: string)
    requires Unbound(p, hook)
    ensures RemoveEdits(AddEdits(p, hook), hook) == p
  {
    var q := AddEdits(p, hook);
    assert HooksOf(q) - {hook} == HooksOf(p);
    assert ScriptsOf(q) - {RemoveDash(hook)} == ScriptsOf(p);
    var husky := HuskyOf(p);
    UpdateOverrides(husky, HooksKey, JObject(AddedHooks(p, hook)), JObject(HooksOf(p)));
    UpdateSame(husky, HooksKey, JObject(HooksOf(p)));
    var s := JObject(AddedScripts(p, hook));
    var h := JObject(husky[HooksKey := JObject(AddedHooks(p, hook))]);
    UpdateOverrides(p[ScriptsKey := s], HuskyKey, h, p[HuskyKey]);
    UpdateSame(p, HuskyKey, p[HuskyKey]);
    UpdateOverrides(p, ScriptsKey, s, p[ScriptsKey]);
    UpdateSame(p, ScriptsKey, p[ScriptsKey]);
  }

  /**
   * Round trip: on a manifest whose two sections exist and hold neither binding,
   * `remove(hook)` after `add(hook)` writes back the manifest as read, less `_id`.
   */
  lemma AddThenRemove(pkg: Manifest, hook: string)
    requires Unbound(pkg, hook)
    ensures RemovedDocument(AddedDocument(pkg, hook), hook) == OmitId(pkg)
  {
    var added := AddedDocument(pkg, hook);
    AddedDocumentParts(pkg, hook);
    RemovedDocumentParts(added, hook);
    OmitIdNoop(added);
    assert Unbound(OmitId(pkg), hook);
    RemoveEditsUndoesAdd(OmitId(pkg), hook);
  }

  /**
   * The round trip restores the manifest only under that condition: if `remove(hook)`
   * after `add(hook)` writes back the manifest as read, its sections were objects
   * without either binding.
   */
  lemma AddThenRemoveOnlyWhen(pkg: Manifest, hook: string)
    requires RemovedDocument(AddedDocument(pkg, hook), hook) == OmitId(pkg)
    ensures Unbound(pkg, hook)
  {
    var out := RemovedDocument(AddedDocument(pkg, hook), hook);
    RemoveDeletesExactly(AddedDocument(pkg, hook), hook);
    assert ScriptsKey in out && HuskyKey in out;
    assert ScriptsKey in pkg && pkg[ScriptsKey] == out[ScriptsKey];
    assert HuskyKey in pkg && pkg[HuskyKey] == out[HuskyKey];
  }

  /**
   * Without a `scripts` section the round trip does not restore it: `add` wrote the
   * default `test` script and `remove` leaves it behind.
   */
  lemma AddThenRemoveKeepsDefaultTest(pkg: Manifest, hook: string)
    requires hook in HookNames && ScriptsKey !in pkg
    ensures ScriptsOf(RemovedDocument(AddedDocument(pkg, hook), hook)) == map[TestKey := JString(DefaultTest)]
  {
    ScriptKeyNotTest(hook);
    var added := AddedDocument(pkg, hook);
    assert ScriptsOf(added) - {RemoveDash(hook)} == map[TestKey := JString(DefaultTest)];
  }

  /** Removing one known hook leaves the bindings `add` wrote for a different known hook. */
  lemma RemoveKeepsOtherHook(pkg: Manifest, added: string, removed: string)
    requires added in HookNames && removed in HookNames && added != removed
    ensures var out := RemovedDocument(AddedDocument(pkg, added), removed);
      && RemoveDash(added) in ScriptsOf(out) && ScriptsOf(out)[RemoveDash(added)] == JString(AddedScript)
      && added in HooksOf(out) && HooksOf(out)[added] == JString(HookCommand(added))
  {
    if RemoveDash(added) == RemoveDash(removed) {
      ScriptKeyInjective(added, removed);
    }
    AddBindsHook(pkg, added);
    RemoveDeletesExactly(AddedDocument(pkg, added), removed);
  }

  // ----- init -----------------------------------------------------------------------

  /** The `scripts` object `init` stores: `precommit` is (over)written with `npm test`. */
  function InitScripts(pkg: Manifest): (r: map<string, Json>)
    ensures PrecommitKey in r && r[PrecommitKey] == JString(PrecommitScript)
    ensures r.Keys == ScriptsOf(pkg).Keys + {PrecommitKey} + (if ScriptsKey in pkg then {} else {TestKey})
    ensures ScriptsKey !in pkg ==> r == map[TestKey := JString(DefaultTest), PrecommitKey := JString(PrecommitScript)]
    ensures forall k :: k in ScriptsOf(pkg) && k != PrecommitKey ==> r[k] == ScriptsOf(pkg)[k]
  {
    if ScriptsKey in pkg then ScriptsOf(pkg)[PrecommitKey := JString(PrecommitScript)]
    else map[TestKey := JString(DefaultTest), PrecommitKey := JString(PrecommitScript)]
  }

  /** The in-memory document after `init`'s `Object.assign`. */
  function InitEdits(pkg: Manifest): (r: Manifest)
    ensures ScriptsKey in r && r[ScriptsKey] == JObject(InitScripts(pkg))
    ensures HuskyKey in r && HuskyOf(r) == map[HooksKey := JObject(map[PreCommitHook := JString(PreCommitCommand)])]
    ensures r.Keys == pkg.Keys + {ScriptsKey, HuskyKey}
  {
    pkg[ScriptsKey := JObject(InitScripts(pkg))]
       [HuskyKey := JObject(map[HooksKey := JObject(map[PreCommitHook := JString(PreCommitCommand)])])]
  }

  /** The document `init()` hands to write-pkg when husky is not configured yet. */
  function InitDocument(pkg: Manifest): (r: Manifest)
    ensures IdKey !in r && r.Keys == pkg.Keys + {ScriptsKey, HuskyKey} - {IdKey}
    ensures ScriptsOf(r) == InitScripts(pkg) && HooksOf(r) == map[PreCommitHook := JString(PreCommitCommand)]
  {
    OmitId(InitEdits(pkg))
  }

  /** `init()`: leave a configured manifest alone, otherwise write the pre-commit setup. */
  function Init(pkg: Manifest): (r: Report)
    ensures r.HuskyExists? <==> HuskyKey in pkg && Truthy(pkg[HuskyKey])
    ensures r.HuskyExists? || r.Written?
    ensures r.Written? ==> IdKey !in r.doc && r.doc == InitDocument(pkg)
  {
    if HuskyKey in pkg && Truthy(pkg[HuskyKey]) then HuskyExists
    else Written(InitDocument(pkg))
  }

  /**
   * What `init` writes: one `pre-commit` hook running the `precommit` script, which
   * runs `npm test`; a manifest without `scripts` also gets the default `test`.
   * Every other script and every other top-level member stays.
   */
  lemma InitWrites(pkg: Manifest)
    requires !(HuskyKey in pkg && Truthy(pkg[HuskyKey]))
    ensures Init(pkg).Written?
    ensures var out := Init(pkg).doc;
      && out[HuskyKey] == JObject(map[HooksKey := JObject(map["pre-commit" := JString("npm run precommit")])])
      && (ScriptsKey !in pkg ==>
            out[ScriptsKey] == JObject(map["test" := JString(DefaultTest), "precommit" := JString("npm test")]))
      && (ScriptsKey in pkg ==>
            && out[ScriptsKey].JObject?
            && ScriptsOf(out).Keys == ScriptsOf(pkg).Keys + {"precommit"}
            && ScriptsOf(out)["precommit"] == JString("npm test")
            && forall k :: k in ScriptsOf(pkg) && k != "precommit" ==> ScriptsOf(out)[k] == ScriptsOf(pkg)[k])
      && SameOtherMembers(pkg, out)
  {
  }

  /** Once `init` has written its setup, running it again reports that husky exists. */
  lemma InitTwice(pkg: Manifest)
    ensures Init(pkg).Written? ==> Init(Init(pkg).doc) == HuskyExists
  {
  }

  /** `init`'s binding is the one `add("pre-commit")` would name: same hook, script name and command. */
  lemma InitUsesAddNaming()
    ensures PreCommitHook in HookNames
    ensures RemoveDash(PreCommitHook) == PrecommitKey
    ensures HookCommand(PreCommitHook) == PreCommitCommand
  {
    ScriptKeyAt(11);
  }

  // ----- shape of the written document ----------------------------------------------

  /** Every document `add` writes from a well-formed manifest holds both sections as objects of strings. */
  lemma AddSectioned(pkg: Manifest, hook: string)
    requires WellFormed(pkg)
    ensures Sectioned(AddedDocument(pkg, hook))
  {
  }

  /** Every document `remove` writes from a well-formed manifest holds both sections as objects of strings. */
  lemma RemoveSectioned(pkg: Manifest, hook: string)
    requires WellFormed(pkg)
    ensures Sectioned(RemovedDocument(pkg, hook))
  {
  }

  /** Every document `init` writes from a well-formed manifest holds both sections as objects of strings. */
  lemma InitSectioned(pkg: Manifest)
    requires WellFormed(pkg) && !(HuskyKey in pkg && Truthy(pkg[HuskyKey]))
    ensures Sectioned(Init(pkg).doc)
  {
  }
}
