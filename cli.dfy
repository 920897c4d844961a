/**
 * The command dispatch of HuskyConf's `setup`: the first command-line word is
 * accepted when it is one of the four commands or their one-letter aliases, and
 * selects `init`, `remove`, `add` or `version`; anything else is reported as
 * "Command not valid". The second word, when there is one, is the hook.
 */
module Cli {
  import opened Document
  import opened Hooks
  import opened Editor

  datatype Command = InitCmd | AddCmd | RemoveCmd | VersionCmd

  /** The constructor's `this.command` list. */
  const Commands: seq<string> := ["init", "add", "remove", "version"]

  /** The constructor's `this.alias` list, position by position the same commands. */
  const Aliases: seq<string> := ["i", "a", "r", "v"]

  /** The full name of a command. */
  function NameOf(c: Command): string
  {
    match c
    case InitCmd => "init"
    case AddCmd => "add"
    case RemoveCmd => "remove"
    case VersionCmd => "version"
  }

  /** The one-letter alias of a command. */
  function AliasOf(c: Command): string
  {
    match c
    case InitCmd => "i"
    case AddCmd => "a"
    case RemoveCmd => "r"
    case VersionCmd => "v"
  }

  /**
   * The accept-or-reject test of `setup` (`indexOf > -1` on either list) followed by
   * its `===` comparisons, which pick the command the word names.
   */
  function ParseCommand(input: string): (r: Option<Command>)
    ensures r.None? <==> input !in Commands && input !in Aliases
    ensures r.Some? ==> input == NameOf(r.value) || input == AliasOf(r.value)
  {
    if IndexOf(Commands, input) > -1 || IndexOf(Aliases, input) > -1 then
      if input == "init" || input == "i" then Some(InitCmd)
      else if input == "remove" || input == "r" then Some(RemoveCmd)
      else if input == "add" || input == "a" then Some(AddCmd)
      else Some(VersionCmd)
    else None
  }

  /** Each command is selected by its name and by its alias, and by no other word. */
  lemma ParseCommandExact(input: string, c: Command)
    ensures ParseCommand(input) == Some(c) <==> input == NameOf(c) || input == AliasOf(c)
  {
  }

  /** The commands in the order of both lists. */
  const AllCommands: seq<Command> := [InitCmd, AddCmd, RemoveCmd, VersionCmd]

  /** The two lists are parallel: the i-th alias is the first letter of the i-th command. */
  lemma AliasesAreInitials(i: nat)
    requires i < |AllCommands|
    ensures |Commands| == |Aliases| == |AllCommands|
    ensures Commands[i] == NameOf(AllCommands[i]) && Aliases[i] == AliasOf(AllCommands[i])
    ensures Aliases[i] == Commands[i][..1]
  {
  }

  /** A command's name and its alias select that command. */
  lemma NameAndAliasSelect(c: Command)
    ensures ParseCommand(NameOf(c)) == Some(c) && ParseCommand(AliasOf(c)) == Some(c)
  {
    ParseCommandExact(NameOf(c), c);
    ParseCommandExact(AliasOf(c), c);
  }

  /** `add(value)` with the second word, which is `undefined` (never a hook) when it is missing. */
  function AddValue(pkg: Manifest, value: Option<string>): (r: Report)
    ensures r.InvalidHook? || r.Written?
    ensures r.InvalidHook? <==> value.None? || value.value !in HookNames
    ensures r.Written? ==> value.Some? && r.doc == AddedDocument(pkg, value.value)
  {
    match value
    case None => InvalidHook
    case Some(hook) => Add(pkg, hook)
  }

  /** `remove(value)` with the second word, or `undefined` when it is missing. */
  function RemoveValue(pkg: Manifest, value: Option<string>): (r: Report)
    ensures r.InvalidHook? || r.Written?
    ensures r.InvalidHook? <==> value.None? || value.value !in HookNames
    ensures r.Written? ==> value.Some? && r.doc == RemovedDocument(pkg, value.value)
  {
    match value
    case None => InvalidHook
    case Some(hook) => Remove(pkg, hook)
  }

  /**
   * `setup(input, value)` on the manifest read from disk. Whether husky is already a
   * dependency and whether installing it succeeds are inputs: `init` and `add` go
   * ahead when it is installed or its installation succeeds, and do nothing else
   * when the installation fails.
   */
  function Setup(input: string, value: Option<string>, pkg: Manifest, installed: bool, installSucceeds: bool): (r: Report)
    ensures r == CommandNotValid <==> ParseCommand(input).None?
    ensures r == InstallFailed ==> !installed && !installSucceeds
  {
    match ParseCommand(input)
    case None => CommandNotValid
    case Some(InitCmd) => if installed || installSucceeds then Init(pkg) else InstallFailed
    case Some(RemoveCmd) => RemoveValue(pkg, value)
    case Some(AddCmd) => if installed || installSucceeds then AddValue(pkg, value) else InstallFailed
    case Some(VersionCmd) => ShowVersion
  }

  /** Whatever the command line, a document that `setup` writes never carries `_id`. */
  lemma SetupNeverWritesId(input: string, value: Option<string>, pkg: Manifest, installed: bool, installSucceeds: bool)
    ensures var r := Setup(input, value, pkg, installed, installSucceeds);
      r.Written? ==> IdKey !in r.doc
  {
  }

  /**
   * `setup` writes only for `add`, `remove` and `init` and, for the first two, only
   * when the second word is one of the 18 hooks; the document written is then the one
   * that operation computes.
   */
  lemma SetupWrites(input: string, value: Option<string>, pkg: Manifest, installed: bool, installSucceeds: bool)
    ensures var r := Setup(input, value, pkg, installed, installSucceeds);
      r.Written? ==>
        || (ParseCommand(input) == Some(InitCmd) && r == Init(pkg))
        || (ParseCommand(input) == Some(AddCmd) && value.Some? && value.value in HookNames
            && r.doc == AddedDocument(pkg, value.value))
        || (ParseCommand(input) == Some(RemoveCmd) && value.Some? && value.value in HookNames
            && r.doc == RemovedDocument(pkg, value.value))
  {
  }

  /**
   * `remove` with an unknown or missing hook needs no husky installation and only
   * reports it; `add` reports it once husky is installed, or after installing it.
   */
  lemma SetupRejectsHook(input: string, value: Option<string>, pkg: Manifest, installed: bool, installSucceeds: bool)
    requires input == "add" || input == "a" || input == "remove" || input == "r"
    requires value.None? || value.value !in HookNames
    requires installed || installSucceeds || input == "remove" || input == "r"
    ensures Setup(input, value, pkg, installed, installSucceeds) == InvalidHook
  {
  }

  /**
   * An accepted word runs its command: `version` shows the version, `init` and `add`
   * run once husky is available (or report the failed install), and `add` and
   * `remove` write their document for a known hook and report any other value.
   */
  lemma SetupDispatches(input: string, c: Command, value: Option<string>, pkg: Manifest, installed: bool, installSucceeds: bool)
    requires input == NameOf(c) || input == AliasOf(c)
    ensures var r := Setup(input, value, pkg, installed, installSucceeds);
      var ready := installed || installSucceeds;
      var known := value.Some? && value.value in HookNames;
      && (c == VersionCmd ==> r == ShowVersion)
      && (c == InitCmd ==> r == if ready then Init(pkg) else InstallFailed)
      && (c == AddCmd ==> r == if !ready then InstallFailed
                               else if known then Written(AddedDocument(pkg, value.value))
                               else InvalidHook)
      && (c == RemoveCmd ==> r == if known then Written(RemovedDocument(pkg, value.value)) else InvalidHook)
  {
    ParseCommandExact(input, c);
  }
}
