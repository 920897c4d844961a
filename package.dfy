/**
 * The edits as HuskyConf performs them: on the one `pkg` object read-pkg returned,
 * updated member by member in place (`dotProp.set`, lodash `merge`, `Object.assign`)
 * and then copied without `_id` for write-pkg. Each method is proved to leave the
 * object in the state the corresponding function of the editor describes.
 */
module PackageEditor {
  import opened Document
  import opened Hooks
  import opened Editor

  class Package {
    /** The in-memory package.json object. */
    var doc: Manifest

    /** The object read-pkg resolved with. */
    constructor (read: Manifest)
      ensures doc == read
    {
      doc := read;
    }

    /** `dotProp.set(pkg, 'scripts', scripts)`. */
    method SetScripts(scripts: map<string, Json>)
      modifies this
      ensures doc == old(doc)[ScriptsKey := JObject(scripts)]
    {
      doc := doc[ScriptsKey := JObject(scripts)];
    }

    /** `dotProp.set(pkg, 'husky.hooks', hooks)`: a `husky` that is not an object becomes one. */
    method SetHuskyHooks(hooks: map<string, Json>)
      modifies this
      ensures doc == SetHooks(old(doc), hooks)
    {
      var husky := HuskyOf(doc);
      doc := doc[HuskyKey := JObject(husky[HooksKey := JObject(hooks)])];
    }

    /** `omit(pkg, '_id')`: the copy handed to write-pkg; the object itself is not changed. */
    method WriteCopy() returns (r: Report)
      ensures r.Written? && IdKey !in r.doc
      ensures forall k :: k != IdKey ==> (k in r.doc <==> k in doc)
      ensures forall k :: k in r.doc ==> r.doc[k] == doc[k]
    {
      r := Written(OmitId(doc));
    }

    /** The in-place part of `add(hook)`: `scripts` is set, then `husky.hooks`. */
    method AddEntries(hook: string)
      modifies this
      ensures doc == AddEdits(old(doc), hook)
    {
      var key := RemoveDash(hook);
      var scripts;
      if ScriptsKey in doc {
        scripts := ScriptsOf(doc)[key := JString(AddedScript)];
      } else {
        scripts := map[TestKey := JString(DefaultTest)][key := JString(AddedScript)];
      }
      var huskyPresent := HuskyKey in doc;
      SetScripts(scripts);
      var hooks;
      if huskyPresent {
        hooks := HooksOf(doc)[hook := JString(HookCommand(hook))];
      } else {
        hooks := map[hook := JString(HookCommand(hook))];
      }
      SetHuskyHooks(hooks);
    }

    /**
     * `add(hook)`: an unknown hook is reported and the object is left alone; otherwise
     * the entries are set and the result is written.
     */
    method Add(hook: string) returns (r: Report)
      modifies this
      ensures r == Editor.Add(old(doc), hook)
      ensures r.InvalidHook? ==> doc == old(doc)
      ensures r.Written? ==> doc == AddEdits(old(doc), hook) && r.doc == OmitId(doc)
    {
      if IndexOf(HookNames, hook) < 0 {
        return InvalidHook;
      }
      AddEntries(hook);
      r := WriteCopy();
    }

    /**
     * `remove(hook)`: an unknown hook is reported and the object is left alone;
     * otherwise `husky.hooks` and then `scripts` are replaced by copies without the
     * hook's entries and the result is written.
     */
    method Remove(hook: string) returns (r: Report)
      modifies this
      ensures r == Editor.Remove(old(doc), hook)
      ensures r.InvalidHook? ==> doc == old(doc)
      ensures r.Written? ==> doc == RemoveEdits(old(doc), hook) && r.doc == OmitId(doc)
    {
      if IndexOf(HookNames, hook) < 0 {
        return InvalidHook;
      }
      SetHuskyHooks(HooksOf(doc) - {hook});
      SetScripts(ScriptsOf(doc) - {RemoveDash(hook)});
      r := WriteCopy();
    }

    /**
     * `init()`: a truthy `husky` is reported and the object is left alone; otherwise
     * `scripts` and `husky` are assigned and the result is written.
     */
    method Init() returns (r: Report)
      modifies this
      ensures r == Editor.Init(old(doc))
      ensures r.HuskyExists? ==> doc == old(doc)
      ensures r.Written? ==> doc == InitEdits(old(doc)) && r.doc == OmitId(doc)
    {
      if HuskyKey in doc && Truthy(doc[HuskyKey]) {
        return HuskyExists;
      }
      var scripts;
      if ScriptsKey in doc {
        scripts := ScriptsOf(doc)[PrecommitKey := JString(PrecommitScript)];
      } else {
        scripts := map[TestKey := JString(DefaultTest), PrecommitKey := JString(PrecommitScript)];
      }
      var husky := JObject(map[HooksKey := JObject(map[PreCommitHook := JString(PreCommitCommand)])]);
      doc := doc[ScriptsKey := JObject(scripts)][HuskyKey := husky];
      r := WriteCopy();
    }
  }
}
