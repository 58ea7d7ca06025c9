/**
 * The command registry: every file of the commands directory is loaded, its export
 * is normalised to one `{name, aliases, run}` record, and each name and alias is
 * entered in one shared map twice, lower-cased and with its `!` prefix toggled.
 * Duplicate keys resolve as last writer wins.
 */
module CommandLoader {
  import opened Wrappers
  import opened Text

  /** The identity of a command's `run` function; what it does lies outside the model. */
  datatype Handler = Handler(id: nat)

  /**
   * What `require` of a command file evaluates to.
   * `name == ""` stands for a missing or falsy `name`; `aliases == None` for a missing
   * `aliases` (an empty array is truthy and is kept); `run == None` for a `run` that is
   * missing or not a function, and also covers truthy values that are not objects.
   */
  datatype Export =
    | FunctionExport(fn: Handler)
    | ObjectExport(name: string, aliases: Option<seq<string>>, run: Option<Handler>)
    | NoExport

  /** The normalised command record. */
  datatype Command = Command(name: string, aliases: seq<string>, run: Handler)

  /** Loading one file either throws or yields its export. */
  datatype Loaded = Threw | Exported(value: Export)

  /** One directory entry: its file name and the result of `require` on it. */
  datatype SourceFile = SourceFile(fileName: string, loaded: Loaded)

  /**
   * normalizeCommand: a bare function gets the name `"!" + fileBase` and the alias
   * `fileBase`; an object with a `run` function keeps its declared name and aliases,
   * each defaulting the same way; anything else is rejected. The third branch of the
   * source (a declared name with `aliases || []`) can never be reached, because the
   * second branch already accepts every object with a `run` function.
   */
  function Normalize(e: Export, fileBase: string): (c: Option<Command>)
    ensures c.Some? <==> e.FunctionExport? || (e.ObjectExport? && e.run.Some?)
    ensures e.FunctionExport? ==> c == Some(Command("!" + fileBase, [fileBase], e.fn))
    ensures e.ObjectExport? && e.run.Some? ==>
      && c.value.run == e.run.value
      && c.value.name == (if e.name != "" then e.name else "!" + fileBase)
      && c.value.aliases == (if e.aliases.Some? then e.aliases.value else [fileBase])
    ensures c.Some? ==> c.value.name != ""
  {
    match e
    case FunctionExport(fn) => Some(Command("!" + fileBase, [fileBase], fn))
    case ObjectExport(name, aliases, run) =>
      if run.Some? then
        Some(Command(if name != "" then name else "!" + fileBase,
                     if aliases.Some? then aliases.value else [fileBase],
                     run.value))
      else None
    case NoExport => None
  }

  /** The form of a lower-cased name with its leading `!` removed, or with one added. */
  function Toggle(low: string): string
  {
    if StartsWith(low, "!") then low[1..] else "!" + low
  }

  /**
   * Toggling twice gives the name back, unless the name starts with two `!`
   * (`"!!x"` toggles to `"!x"` and then to `"x"`).
   */
  lemma ToggleTwice(k: string)
    requires !StartsWith(k, "!!")
    ensures Toggle(Toggle(k)) == k
    ensures !StartsWith(Toggle(k), "!!")
  {
    if StartsWith(k, "!") {
      assert k == "!" + k[1..];
    }
  }

  lemma ToggleLower(low: string)
    requires IsLower(low)
    ensures IsLower(Toggle(low))
  {
  }

  /** The keys `pushName` adds for one name: none for an empty name, else the two forms. */
  function NameKeys(n: string): set<string>
  {
    if n == "" then {} else {Lower(n), Toggle(Lower(n))}
  }

  /** The keys for a list of names, the list read from left to right. */
  function KeysOf(names: seq<string>): set<string>
  {
    if names == [] then {} else KeysOf(names[..|names| - 1]) + NameKeys(names[|names| - 1])
  }

  /** The name and every alias of a command, in the order `registerNames` visits them. */
  function Names(c: Command): seq<string>
  {
    [c.name] + c.aliases
  }

  function CommandKeys(c: Command): set<string>
  {
    KeysOf(Names(c))
  }

  /**
   * A key is registered for a list of names exactly when it is the lower-cased form,
   * or the toggled lower-cased form, of one of its non-empty names.
   */
  lemma {:induction false} KeysOfSpec(names: seq<string>, k: string)
    ensures k in KeysOf(names) <==>
      exists i :: 0 <= i < |names| && names[i] != "" && (k == Lower(names[i]) || k == Toggle(Lower(names[i])))
    decreases |names|
  {
    if names != [] {
      var init := names[..|names| - 1];
      KeysOfSpec(init, k);
      if k in KeysOf(init) {
        var i :| 0 <= i < |init| && init[i] != "" && (k == Lower(init[i]) || k == Toggle(Lower(init[i])));
        assert names[i] == init[i];
      }
      if exists i :: 0 <= i < |names| && names[i] != "" && (k == Lower(names[i]) || k == Toggle(Lower(names[i]))) {
        var i :| 0 <= i < |names| && names[i] != "" && (k == Lower(names[i]) || k == Toggle(Lower(names[i])));
        if i < |init| {
          assert init[i] == names[i];
        }
      }
    }
  }

  /** No name of the list lower-cases to a string that starts with `!!`. */
  predicate SingleBang(names: seq<string>)
  {
    forall i :: 0 <= i < |names| ==> !StartsWith(Lower(names[i]), "!!")
  }

  /**
   * Every registered key is lower case, and when no name starts with `!!` the key
   * set is closed under toggling.
   */
  lemma {:induction false} KeysOfPaired(names: seq<string>, k: string)
    requires SingleBang(names)
    requires k in KeysOf(names)
    ensures IsLower(k) && !StartsWith(k, "!!") && Toggle(k) in KeysOf(names)
    decreases |names|
  {
    var init := names[..|names| - 1];
    var n := names[|names| - 1];
    if k in KeysOf(init) {
      assert SingleBang(init) by {
        forall i | 0 <= i < |init| ensures !StartsWith(Lower(init[i]), "!!") {
          assert init[i] == names[i];
        }
      }
      KeysOfPaired(init, k);
    } else {
      assert !StartsWith(Lower(n), "!!");
      LowerIsLower(n);
      ToggleLower(Lower(n));
      ToggleTwice(Lower(n));
    }
  }

  /** Registering one command: its keys now map to it, and every other key is unchanged. */
  function Register(m: map<string, Command>, c: Command): (r: map<string, Command>)
    ensures r.Keys == m.Keys + CommandKeys(c)
    ensures forall k :: k in CommandKeys(c) ==> r[k] == c
    ensures forall k :: k in m && k !in CommandKeys(c) ==> r[k] == m[k]
  {
    m + map k | k in CommandKeys(c) :: c
  }

  /** Only `.js` files are considered. */
  predicate IsJs(fileName: string)
  {
    EndsWith(fileName, ".js")
  }

  /** `path.basename(file, ".js")` for a directory entry that ends in `.js`. */
  function BaseName(fileName: string): string
    requires IsJs(fileName)
  {
    fileName[..|fileName| - 3]
  }

  /** The command a directory entry contributes: none for a non-`.js` file, a throwing module or a rejected export. */
  function FileCommand(f: SourceFile): (r: Option<Command>)
    ensures r.Some? ==> IsJs(f.fileName) && f.loaded.Exported? && r.value.name != ""
  {
    if !IsJs(f.fileName) then None
    else match f.loaded
      case Threw => None
      case Exported(e) => Normalize(e, BaseName(f.fileName))
  }

  /** One step of the loop over the directory. */
  function LoadFile(m: map<string, Command>, f: SourceFile): map<string, Command>
  {
    match FileCommand(f)
    case None => m
    case Some(c) => Register(m, c)
  }

  /** The map after the files, taken in directory order. */
  function LoadAll(m: map<string, Command>, files: seq<SourceFile>): map<string, Command>
  {
    if files == [] then m else LoadFile(LoadAll(m, files[..|files| - 1]), files[|files| - 1])
  }

  /** loadCommands: a missing directory gives the empty map. */
  function Load(dir: Option<seq<SourceFile>>): map<string, Command>
  {
    match dir
    case None => map[]
    case Some(files) => LoadAll(map[], files)
  }

  /**
   * The registry is bidirectional: each key is lower case, and it and its toggled
   * form map to the same command.
   */
  ghost predicate Paired(m: map<string, Command>)
  {
    forall k {:trigger m[k]} :: k in m ==>
      IsLower(k) && !StartsWith(k, "!!") && Toggle(k) in m && m[Toggle(k)] == m[k]
  }

  lemma RegisterPaired(m: map<string, Command>, c: Command)
    requires Paired(m) && SingleBang(Names(c))
    ensures Paired(Register(m, c))
  {
    var r := Register(m, c);
    forall k | k in r
      ensures IsLower(k) && !StartsWith(k, "!!") && Toggle(k) in r && r[Toggle(k)] == r[k]
    {
      if k in CommandKeys(c) {
        KeysOfPaired(Names(c), k);
      } else {
        assert m[k] == r[k];
        if Toggle(k) in CommandKeys(c) {
          KeysOfPaired(Names(c), Toggle(k));
          ToggleTwice(k);
          assert false;
        }
      }
    }
  }

  /** Every file's command, if it has one, has no name starting with `!!`. */
  predicate SingleBangFiles(files: seq<SourceFile>)
  {
    forall i :: 0 <= i < |files| && FileCommand(files[i]).Some? ==> SingleBang(Names(FileCommand(files[i]).value))
  }

  /**
   * A loaded registry is lower-cased and paired under toggling, provided no
   * command declares a name that starts with `!!`.
   */
  lemma {:induction false} LoadAllPaired(m: map<string, Command>, files: seq<SourceFile>)
    requires Paired(m) && SingleBangFiles(files)
    ensures Paired(LoadAll(m, files))
  {
    if files != [] {
      var init := files[..|files| - 1];
      assert SingleBangFiles(init) by {
        forall i | 0 <= i < |init| && FileCommand(init[i]).Some?
          ensures SingleBang(Names(FileCommand(init[i]).value))
        {
          assert init[i] == files[i];
        }
      }
      LoadAllPaired(m, init);
      var prev := LoadAll(m, init);
      var f := files[|files| - 1];
      if FileCommand(f).Some? {
        RegisterPaired(prev, FileCommand(f).value);
      }
    }
  }

  lemma LoadPaired(files: seq<SourceFile>)
    requires SingleBangFiles(files)
    ensures Paired(Load(Some(files)))
  {
    LoadAllPaired(map[], files);
  }

  /**
   * Last writer wins: when file `i` registers key `k` and no later file registers it,
   * the loaded map sends `k` to file `i`'s command.
   */
  lemma {:induction false} LastWriterWins(files: seq<SourceFile>, i: nat, k: string)
    requires i < |files| && FileCommand(files[i]).Some?
    requires k in CommandKeys(FileCommand(files[i]).value)
    requires forall j :: i < j < |files| && FileCommand(files[j]).Some? ==> k !in CommandKeys(FileCommand(files[j]).value)
    ensures k in Load(Some(files)) && Load(Some(files))[k] == FileCommand(files[i]).value
    decreases |files|
  {
    var init := files[..|files| - 1];
    if i < |files| - 1 {
      assert init[i] == files[i];
      forall j | i < j < |init| && FileCommand(init[j]).Some?
        ensures k !in CommandKeys(FileCommand(init[j]).value)
      {
        assert init[j] == files[j];
      }
      LastWriterWins(init, i, k);
    }
  }

  /** Every key of the loaded map was registered by some loaded file, and maps to that file's command. */
  lemma {:induction false} LoadedKeyOrigin(m: map<string, Command>, files: seq<SourceFile>, k: string)
    requires k in LoadAll(m, files) && k !in m
    ensures exists i :: (0 <= i < |files| && FileCommand(files[i]).Some?
      && k in CommandKeys(FileCommand(files[i]).value)
      && LoadAll(m, files)[k] == FileCommand(files[i]).value)
    decreases |files|
  {
    var init := files[..|files| - 1];
    var f := files[|files| - 1];
    if FileCommand(f).Some? && k in CommandKeys(FileCommand(f).value) {
      assert FileCommand(files[|files| - 1]).Some?;
    } else {
      LoadedKeyOrigin(m, init, k);
      var i :| 0 <= i < |init| && FileCommand(init[i]).Some?
        && k in CommandKeys(FileCommand(init[i]).value)
        && LoadAll(m, init)[k] == FileCommand(init[i]).value;
      assert init[i] == files[i];
    }
  }

  /** Loading a concatenation of file lists is loading one after the other. */
  lemma {:induction false} LoadAllAppend(m: map<string, Command>, a: seq<SourceFile>, b: seq<SourceFile>)
    ensures LoadAll(m, a + b) == LoadAll(LoadAll(m, a), b)
    decreases |b|
  {
    if b == [] {
      assert a + b == a;
    } else {
      assert (a + b)[..|a + b| - 1] == a + b[..|b| - 1];
      LoadAllAppend(m, a, b[..|b| - 1]);
    }
  }

  /** Loading never removes a key: every key present before is present after. */
  lemma {:induction false} LoadAllKeysGrow(m: map<string, Command>, files: seq<SourceFile>)
    ensures m.Keys <= LoadAll(m, files).Keys
    decreases |files|
  {
    if files != [] {
      LoadAllKeysGrow(m, files[..|files| - 1]);
    }
  }

  /** Every key of every loaded file is in the final map, whatever the files after it register. */
  lemma LoadedFileKeysPresent(files: seq<SourceFile>, i: nat)
    requires i < |files| && FileCommand(files[i]).Some?
    ensures CommandKeys(FileCommand(files[i]).value) <= Load(Some(files)).Keys
  {
    var a, b := files[..i + 1], files[i + 1..];
    assert files == a + b;
    assert a[..|a| - 1] == files[..i] && a[|a| - 1] == files[i];
    LoadAllAppend(map[], a, b);
    LoadAllKeysGrow(LoadAll(map[], a), b);
  }

  /** A file that contributes no command (not `.js`, throws, or is rejected) leaves the result unchanged. */
  lemma SkippedFileIsInert(m: map<string, Command>, a: seq<SourceFile>, f: SourceFile, b: seq<SourceFile>)
    requires FileCommand(f).None?
    ensures LoadAll(m, a + [f] + b) == LoadAll(m, a + b)
  {
    LoadAllAppend(m, a + [f], b);
    LoadAllAppend(m, a, b);
    assert (a + [f])[..|a + [f]| - 1] == a;
  }

  /** The mutable map that `loadCommands` fills. */
  class CommandTable {
    var entries: map<string, Command>

    constructor ()
      ensures entries == map[]
    {
      entries := map[];
    }

    /**
     * registerNames: collect the keys of the name and of each alias in a set, then set
     * every collected key to the command.
     */
    method RegisterNames(c: Command)
      modifies this
      ensures entries == Register(old(entries), c)
    {
      var all := Names(c);
      var names: set<string> := {};
      var i := 0;
      while i < |all|
        invariant 0 <= i <= |all|
        invariant names == KeysOf(all[..i])
        invariant entries == old(entries)
      {
        var n := all[i];
        KeysOfStep(all, i);
        if n != "" {
          var low := Lower(n);
          names := names + {low};
          if StartsWith(low, "!") {
            names := names + {low[1..]};
          } else {
            names := names + {"!" + low};
          }
        }
        i := i + 1;
      }
      assert all[..|all|] == all;
      var rest := names;
      ghost var done: set<string> := {};
      SetNone(entries, done, c);
      while rest != {}
        invariant rest <= names && done == names - rest
        invariant entries == old(entries) + map k | k in done :: c
        decreases rest
      {
        var n :| n in rest;
        SetOneMore(old(entries), done, n, c);
        entries := entries[n := c];
        done := done + {n};
        rest := rest - {n};
      }
    }
  }

  /** The keys of one more name. */
  lemma KeysOfStep(all: seq<string>, i: nat)
    requires i < |all|
    ensures KeysOf(all[..i + 1]) == KeysOf(all[..i]) + NameKeys(all[i])
  {
    assert all[..i + 1][..i] == all[..i];
  }

  lemma SetNone(base: map<string, Command>, done: set<string>, c: Command)
    requires done == {}
    ensures base + (map k | k in done :: c) == base
  {
  }

  /** Setting one more key to the command. */
  lemma SetOneMore(base: map<string, Command>, done: set<string>, n: string, c: Command)
    ensures base + (map k | k in done + {n} :: c) == (base + map k | k in done :: c)[n := c]
  {
  }

  /** loadCommands: the loop over the directory, registering every accepted command. */
  method LoadCommands(dir: Option<seq<SourceFile>>) returns (commands: map<string, Command>)
    ensures commands == Load(dir)
  {
    var table := new CommandTable();
    if dir.None? {
      return table.entries;
    }
    var files := dir.value;
    var i := 0;
    while i < |files|
      invariant 0 <= i <= |files|
      invariant table.entries == LoadAll(map[], files[..i])
    {
      var f := files[i];
      assert files[..i + 1][..i] == files[..i];
      if IsJs(f.fileName) {
        match f.loaded {
          case Threw =>
          case Exported(e) =>
            var cmd := Normalize(e, BaseName(f.fileName));
            if cmd.Some? {
              table.RegisterNames(cmd.value);
            }
        }
      }
      i := i + 1;
    }
    assert files[..|files|] == files;
    commands := table.entries;
  }
}
