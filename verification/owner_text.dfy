/** The identity of a backend: which environment entries belong to it, in a canonical
    order, and the text its owner key is derived from. */
module OwnerText {
  import opened Text

  // --------------------------------------------------------- the environment

  /** The name of an entry: everything before the first `=`. */
  function Name(entry: string): string {
    if entry == "" || entry[0] == '=' then "" else [entry[0]] + Name(entry[1..])
  }

  const VolatileNames := {
    "_", "PWD", "OLDPWD", "SHLVL", "HOSTNAME", "LINES", "COLUMNS",
    "TERM", "COLORTERM", "TERM_PROGRAM_VERSION", "TERM_SESSION_ID", "ITERM_SESSION_ID",
    "ITERM_PROFILE", "TMUX", "TMUX_PANE", "STY", "GPG_TTY", "WT_SESSION",
    "SECURITYSESSIONID", "COMMAND_MODE", "__CF_USER_TEXT_ENCODING", "LaunchInstanceID",
    "SSH_CONNECTION", "SSH_CLIENT", "SSH_TTY",
    "TMPDIR", "WINDOWID", "DISPLAY", "VSCODE_IPC_HOOK_CLI",
    "SESSION_MANAGER", "XDG_SESSION_ID",
    "INVOCATION_ID", "JOURNAL_STREAM", "SYSTEMD_EXEC_PID", "NOTIFY_SOCKET",
    "MAINPID", "LISTEN_PID", "LISTEN_FDS", "LISTEN_FDNAMES"}

  predicate Volatile(name: string) {
    name in VolatileNames || "XPC_" <= name
  }

  /** For each name that is not volatile, the last entry that gives it a value. */
  function LastWins(volatile: string -> bool, environment: seq<string>): (last: map<string, string>)
    ensures forall name :: name in last ==> Name(last[name]) == name && last[name] in environment
  {
    if environment == [] then map[]
    else
      var rest, entry := LastWins(volatile, environment[..|environment| - 1]), environment[|environment| - 1];
      if volatile(Name(entry)) then rest else rest[Name(entry) := entry]
  }

  /** The name is what comes before the first `=`, or all there is. */
  lemma {:induction false} NameExactly(entry: string)
    ensures Name(entry) <= entry && '=' !in Name(entry)
    ensures |Name(entry)| == |entry| || entry[|Name(entry)|] == '='
  {
    if entry != "" && entry[0] != '=' { NameExactly(entry[1..]); }
  }

  /** A name has an entry exactly when it is not volatile and some entry gives it a value. */
  lemma {:induction false} LastWinsNames(volatile: string -> bool, environment: seq<string>, name: string)
    ensures name in LastWins(volatile, environment) <==>
      !volatile(name) && exists i :: 0 <= i < |environment| && Name(environment[i]) == name
  {
    if environment != [] {
      var front := environment[..|environment| - 1];
      LastWinsNames(volatile, front, name);
      if i :| 0 <= i < |environment| && Name(environment[i]) == name {
        assert i < |front| ==> Name(front[i]) == name;
      }
      if i :| 0 <= i < |front| && Name(front[i]) == name {
        assert Name(environment[i]) == name;
      }
    }
  }

  /** And then it is the last that does. */
  lemma {:induction false} LastWinsExactly(volatile: string -> bool, environment: seq<string>, i: nat)
    requires i < |environment| && !volatile(Name(environment[i]))
    requires forall j :: i < j < |environment| ==> Name(environment[j]) != Name(environment[i])
    ensures Name(environment[i]) in LastWins(volatile, environment)
    ensures LastWins(volatile, environment)[Name(environment[i])] == environment[i]
  {
    if i < |environment| - 1 {
      LastWinsExactly(volatile, environment[..|environment| - 1], i);
    }
  }

  predicate Ascending(xs: seq<string>) {
    forall i, j :: 0 <= i < j < |xs| ==> Less(xs[i], xs[j])
  }

  /** The entries of `last` in ascending order. */
  ghost predicate Lists(xs: seq<string>, last: map<string, string>) {
    && Ascending(xs)
    && (forall i :: 0 <= i < |xs| ==> Name(xs[i]) in last && last[Name(xs[i])] == xs[i])
    && (forall name :: name in last ==> Name(last[name]) == name && last[name] in xs)
  }

  /** `sort.Strings`, one element at a time. */
  function Insert(xs: seq<string>, x: string): (r: seq<string>)
    ensures forall y :: y in r <==> y in xs || y == x
  {
    if xs == [] then [x]
    else if Less(x, xs[0]) then [x] + xs
    else [xs[0]] + Insert(xs[1..], x)
  }

  lemma {:induction false} InsertAscending(xs: seq<string>, x: string)
    requires Ascending(xs) && x !in xs
    ensures Ascending(Insert(xs, x))
  {
    if xs != [] {
      if Less(x, xs[0]) {
        forall j | 0 < j < |xs| ensures Less(x, xs[j]) { LessTransitive(x, xs[0], xs[j]); }
      } else {
        LessTotal(x, xs[0]);
        InsertAscending(xs[1..], x);
        var rest := Insert(xs[1..], x);
        forall j | 0 <= j < |rest| ensures Less(xs[0], rest[j]) {
          if rest[j] != x {
            assert rest[j] in rest && rest[j] in xs[1..];
            var k :| 0 <= k < |xs[1..]| && xs[1..][k] == rest[j];
            assert xs[k + 1] == rest[j];
          }
        }
      }
    }
  }

  /** Reads the map in any order and sorts what it read. */
  method StableEnvironment(volatile: string -> bool, environment: seq<string>) returns (stable: seq<string>)
    ensures Lists(stable, LastWins(volatile, environment))
  {
    var last: map<string, string> := map[];
    for n := 0 to |environment|
      invariant last == LastWins(volatile, environment[..n])
    {
      assert environment[..n + 1][..n] == environment[..n];
      var entry := environment[n];
      if volatile(Name(entry)) {
        continue;
      }
      last := last[Name(entry) := entry];
    }
    assert environment[..|environment|] == environment;
    stable := SortedValues(last);
  }

  method SortedValues(last: map<string, string>) returns (stable: seq<string>)
    requires forall name :: name in last ==> Name(last[name]) == name
    ensures Lists(stable, last)
  {
    stable := [];
    var todo := last.Keys;
    while todo != {}
      invariant todo <= last.Keys && Ascending(stable)
      invariant forall x :: x in stable ==> Name(x) in last && Name(x) !in todo && last[Name(x)] == x
      invariant forall name :: name in last && name !in todo ==> last[name] in stable
      decreases todo
    {
      var name :| name in todo;
      assert last[name] !in stable;
      InsertAscending(stable, last[name]);
      stable := Insert(stable, last[name]);
      todo := todo - {name};
    }
  }

  /** Ascending lists with the same elements are equal. */
  lemma {:induction false} AscendingUnique(xs: seq<string>, ys: seq<string>)
    requires Ascending(xs) && Ascending(ys) && forall z :: z in xs <==> z in ys
    ensures xs == ys
  {
    if xs != [] || ys != [] {
      var first := if xs != [] then xs[0] else ys[0];
      assert first in xs && first in ys;
      SameFirst(xs, ys);
      forall z ensures z in xs[1..] <==> z in ys[1..] {
        TailMember(xs, z);
        TailMember(ys, z);
      }
      AscendingUnique(xs[1..], ys[1..]);
      assert xs == [xs[0]] + xs[1..] && ys == [ys[0]] + ys[1..];
    }
  }

  lemma SameFirst(xs: seq<string>, ys: seq<string>)
    requires Ascending(xs) && Ascending(ys) && xs != [] && ys != [] && forall z :: z in xs <==> z in ys
    ensures xs[0] == ys[0]
  {
    assert xs[0] in xs && ys[0] in ys;
    var i :| 0 <= i < |ys| && ys[i] == xs[0];
    var j :| 0 <= j < |xs| && xs[j] == ys[0];
    if i > 0 && j > 0 {
      LessTransitive(xs[0], ys[0], xs[0]);
      LessIrreflexive(xs[0]);
    }
  }

  lemma TailMember(xs: seq<string>, z: string)
    requires Ascending(xs) && xs != []
    ensures z in xs[1..] <==> z in xs && z != xs[0]
  {
    LessIrreflexive(xs[0]);
    if z in xs && z != xs[0] {
      var i :| 0 <= i < |xs| && xs[i] == z;
      assert xs[1..][i - 1] == z;
    }
  }

  /** Main result: two environments have the same stable form if and only if their
      last-wins maps of the names that are not volatile agree. */
  lemma StableFormCanonical(xs: seq<string>, ys: seq<string>, a: map<string, string>, b: map<string, string>)
    requires Lists(xs, a) && Lists(ys, b)
    ensures xs == ys <==> a == b
  {
    if a == b {
      forall z ensures z in xs <==> z in ys { SameEntries(xs, ys, a, z); SameEntries(ys, xs, a, z); }
      AscendingUnique(xs, ys);
    }
    if xs == ys {
      forall name | name in a ensures name in b && b[name] == a[name] { FoundAgain(xs, a, b, name); }
      forall name | name in b ensures name in a { FoundAgain(xs, b, a, name); }
    }
  }

  lemma SameEntries(xs: seq<string>, ys: seq<string>, a: map<string, string>, z: string)
    requires Lists(xs, a) && Lists(ys, a)
    ensures z in xs ==> z in ys
  {
    if z in xs {
      var i :| 0 <= i < |xs| && xs[i] == z;
      assert a[Name(xs[i])] in ys;
    }
  }

  lemma FoundAgain(xs: seq<string>, a: map<string, string>, b: map<string, string>, name: string)
    requires Lists(xs, a) && Lists(xs, b) && name in a
    ensures name in b && b[name] == a[name]
  {
    assert a[name] in xs;
    var i :| 0 <= i < |xs| && xs[i] == a[name];
    assert Name(xs[i]) in b && b[Name(xs[i])] == xs[i];
  }

  // ---------------------------------------------------------- the owner text

  function Join(parts: seq<string>, separator: char): string {
    if parts == [] then ""
    else if |parts| == 1 then parts[0]
    else parts[0] + [separator] + Join(parts[1..], separator)
  }

  function HashedText(command: seq<string>, stable: seq<string>, workingDir: string): string {
    Join(command, '\0') + ['\U{1}'] + Join(stable, '\0') + ['\U{2}'] + workingDir
  }

  /** No part holds the character `c`. */
  predicate Without(parts: seq<string>, c: char) {
    forall i :: 0 <= i < |parts| ==> c !in parts[i]
  }

  /** The characters that end an argument or the whole command do not occur in it. */
  predicate PlainCommand(command: seq<string>) {
    command != [] && Without(command, '\0') && Without(command, '\U{1}')
  }

  /** The characters that end an entry or the whole environment do not occur in it. */
  predicate PlainEntries(entries: seq<string>) {
    Without(entries, '\0') && Without(entries, '\U{2}')
  }

  /** Cutting at the first separator is unambiguous. */
  lemma {:induction false} CutUnique(a: string, b: string, x: string, y: string, c: char)
    requires c !in a && c !in x && a + [c] + b == x + [c] + y
    ensures a == x && b == y
  {
    var s := a + [c] + b;
    assert a == "" <==> s[0] == c;
    assert x == "" <==> s[0] == c;
    if a == "" {
      assert b == s[1..] == y;
    } else {
      assert s[1..] == a[1..] + [c] + b == x[1..] + [c] + y;
      CutUnique(a[1..], b, x[1..], y, c);
      assert a == [s[0]] + a[1..] && x == [s[0]] + x[1..];
    }
  }

  lemma {:induction false} JoinKeepsOut(parts: seq<string>, separator: char, c: char)
    requires c != separator && Without(parts, c)
    ensures c !in Join(parts, separator)
  {
    if |parts| > 1 {
      JoinKeepsOut(parts[1..], separator, c);
    }
  }

  lemma HasSeparator(parts: seq<string>)
    requires Without(parts, '\0')
    ensures '\0' in Join(parts, '\0') <==> |parts| > 1
    ensures Join(parts, '\0') == "" <==> parts == [] || parts == [""]
  {
    if |parts| > 1 {
      assert Join(parts, '\0')[|parts[0]|] == '\0';
    }
  }

  lemma {:induction false} JoinInjective(xs: seq<string>, ys: seq<string>)
    requires Without(xs, '\0') && Without(ys, '\0') && xs != [] && ys != [] && Join(xs, '\0') == Join(ys, '\0')
    ensures xs == ys
  {
    HasSeparator(xs);
    HasSeparator(ys);
    if |xs| > 1 {
      CutUnique(xs[0], Join(xs[1..], '\0'), ys[0], Join(ys[1..], '\0'), '\0');
      JoinInjective(xs[1..], ys[1..]);
      assert xs == [xs[0]] + xs[1..] && ys == [ys[0]] + ys[1..];
    }
  }

  /** `a` and `b` are the empty list and the list of one empty part, in either order. */
  predicate LosesEmpty(a: seq<string>, b: seq<string>) {
    (a == [] && b == [""]) || (a == [""] && b == [])
  }

  lemma JoinExactly(xs: seq<string>, ys: seq<string>)
    requires Without(xs, '\0') && Without(ys, '\0')
    ensures Join(xs, '\0') == Join(ys, '\0') <==> xs == ys || LosesEmpty(xs, ys)
  {
    HasSeparator(xs);
    HasSeparator(ys);
    if Join(xs, '\0') == Join(ys, '\0') && xs != [] && ys != [] {
      JoinInjective(xs, ys);
    }
  }

  /** Main result: exactly when two hashed texts are equal, for the nonempty commands the
      agent accepts and parts without the separators that end them. Empty arguments are
      told apart; the one ambiguity is an environment without entries and one with a
      single empty entry. */
  lemma HashedTextExactly(
      command: seq<string>, stable: seq<string>, workingDir: string,
      command': seq<string>, stable': seq<string>, workingDir': string)
    requires PlainCommand(command) && PlainCommand(command') && PlainEntries(stable) && PlainEntries(stable')
    ensures HashedText(command, stable, workingDir) == HashedText(command', stable', workingDir') <==>
      command == command' && workingDir == workingDir' && (stable == stable' || LosesEmpty(stable, stable'))
  {
    JoinExactly(stable, stable');
    if HashedText(command, stable, workingDir) == HashedText(command', stable', workingDir') {
      PartsOfText(command, stable, workingDir, command', stable', workingDir');
      JoinInjective(command, command');
    }
  }

  lemma PartsOfText(
      command: seq<string>, stable: seq<string>, workingDir: string,
      command': seq<string>, stable': seq<string>, workingDir': string)
    requires PlainCommand(command) && PlainCommand(command') && PlainEntries(stable) && PlainEntries(stable')
    requires HashedText(command, stable, workingDir) == HashedText(command', stable', workingDir')
    ensures Join(command, '\0') == Join(command', '\0') && Join(stable, '\0') == Join(stable', '\0')
      && workingDir == workingDir'
  {
    JoinKeepsOut(command, '\0', '\U{1}');
    JoinKeepsOut(command', '\0', '\U{1}');
    JoinKeepsOut(stable, '\0', '\U{2}');
    JoinKeepsOut(stable', '\0', '\U{2}');
    CutTwice(Join(command, '\0'), Join(stable, '\0'), workingDir, Join(command', '\0'), Join(stable', '\0'),
      workingDir');
  }

  lemma CutTwice(c: string, e: string, d: string, x: string, y: string, z: string)
    requires '\U{1}' !in c && '\U{1}' !in x && '\U{2}' !in e && '\U{2}' !in y
    requires c + ['\U{1}'] + e + ['\U{2}'] + d == x + ['\U{1}'] + y + ['\U{2}'] + z
    ensures c == x && e == y && d == z
  {
    assert c + ['\U{1}'] + (e + ['\U{2}'] + d) == c + ['\U{1}'] + e + ['\U{2}'] + d;
    assert x + ['\U{1}'] + (y + ['\U{2}'] + z) == x + ['\U{1}'] + y + ['\U{2}'] + z;
    CutUnique(c, e + ['\U{2}'] + d, x, y + ['\U{2}'] + z, '\U{1}');
    CutUnique(e, d, y, z, '\U{2}');
  }

  lemma {:induction false} LastWinsPlain(volatile: string -> bool, environment: seq<string>, stable: seq<string>)
    requires PlainEntries(environment) && Lists(stable, LastWins(volatile, environment))
    ensures PlainEntries(stable)
  {
    forall i | 0 <= i < |stable| ensures '\0' !in stable[i] && '\U{2}' !in stable[i] {
      assert LastWins(volatile, environment)[Name(stable[i])] in environment;
    }
  }

  const OneEmptyEntry: map<string, string> := map["" := ""]

  /** The two lists that are confused stand for these two maps. */
  lemma EmptyForms(stable: seq<string>, last: map<string, string>)
    requires Lists(stable, last)
    ensures stable == [] <==> last == map[]
    ensures stable == [""] <==> last == OneEmptyEntry
  {
    StableFormCanonical(stable, [], last, map[]);
    StableFormCanonical(stable, [""], last, OneEmptyEntry);
  }

  /** Main result: two backends have the same owner text if and only if they agree in
      command, directory and the last-wins values of all names that are not volatile,
      or differ there only in that one has no entry and the other an empty one. */
  lemma OwnerTextCanonical(
      volatile: string -> bool,
      command: seq<string>, environment: seq<string>, stable: seq<string>, workingDir: string,
      command': seq<string>, environment': seq<string>, stable': seq<string>, workingDir': string)
    requires PlainCommand(command) && PlainCommand(command') && PlainEntries(environment) && PlainEntries(environment')
    requires Lists(stable, LastWins(volatile, environment)) && Lists(stable', LastWins(volatile, environment'))
    ensures var a, b := LastWins(volatile, environment), LastWins(volatile, environment');
      HashedText(command, stable, workingDir) == HashedText(command', stable', workingDir') <==>
        command == command' && workingDir == workingDir'
        && (a == b || (a == map[] && b == OneEmptyEntry) || (a == OneEmptyEntry && b == map[]))
  {
    var a, b := LastWins(volatile, environment), LastWins(volatile, environment');
    LastWinsPlain(volatile, environment, stable);
    LastWinsPlain(volatile, environment', stable');
    StableFormCanonical(stable, stable', a, b);
    EmptyForms(stable, a);
    EmptyForms(stable', b);
    HashedTextExactly(command, stable, workingDir, command', stable', workingDir');
  }

  /** The text of one backend, with the names the adapter treats as volatile. */
  method OwnerKeyText(command: seq<string>, environment: seq<string>, workingDir: string)
    returns (text: string, stable: seq<string>)
    ensures Lists(stable, LastWins(Volatile, environment)) && text == HashedText(command, stable, workingDir)
  {
    stable := StableEnvironment(Volatile, environment);
    text := HashedText(command, stable, workingDir);
  }

  lemma EmptyNameIsStable()
    ensures !Volatile("")
  {
    assert forall name :: name in VolatileNames ==> |name| > 0;
  }

  lemma LastWinsOfOne(volatile: string -> bool, entry: string)
    requires !volatile(Name(entry))
    ensures LastWins(volatile, [entry]) == map[Name(entry) := entry]
  {
    assert [entry][..0] == [];
  }

  /** The ambiguity is real: an environment of one empty entry has the text of an empty one. */
  lemma EmptyEntryIsLost(command: seq<string>, workingDir: string)
    ensures Lists([], LastWins(Volatile, [])) && Lists([""], LastWins(Volatile, [""]))
    ensures LastWins(Volatile, []) != LastWins(Volatile, [""])
    ensures HashedText(command, [], workingDir) == HashedText(command, [""], workingDir)
  {
    EmptyNameIsStable();
    LastWinsOfOne(Volatile, "");
  }

  /** A command that holds the character that ends commands: what follows it could as
      well belong to the first entry of the environment. */
  lemma CommandByteCollides(argument: string, rest: string, entry: string, workingDir: string)
    requires !Volatile(Name(entry)) && !Volatile(Name(rest + ['\U{1}'] + entry))
    ensures var moved := rest + ['\U{1}'] + entry;
      && Lists([entry], LastWins(Volatile, [entry])) && Lists([moved], LastWins(Volatile, [moved]))
      && HashedText([argument + ['\U{1}'] + rest], [entry], workingDir) == HashedText([argument], [moved], workingDir)
  {
    LastWinsOfOne(Volatile, entry);
    LastWinsOfOne(Volatile, rest + ['\U{1}'] + entry);
    RegroupCommand(argument, rest, entry);
  }

  /** An entry that holds the character that ends the environment: what follows it could
      as well belong to the directory. */
  lemma EntryByteCollides(command: seq<string>, entry: string, rest: string, workingDir: string)
    requires !Volatile(Name(entry)) && !Volatile(Name(entry + ['\U{2}'] + rest))
    ensures var longer, moved := entry + ['\U{2}'] + rest, rest + ['\U{2}'] + workingDir;
      && Lists([entry], LastWins(Volatile, [entry])) && Lists([longer], LastWins(Volatile, [longer]))
      && LastWins(Volatile, [longer]) != LastWins(Volatile, [entry])
      && HashedText(command, [longer], workingDir) == HashedText(command, [entry], moved)
  {
    var longer := entry + ['\U{2}'] + rest;
    LastWinsOfOne(Volatile, entry);
    LastWinsOfOne(Volatile, longer);
    assert |longer| > |entry|;
    DifferentEntries(longer, entry);
    Regroup(Join(command, '\0') + ['\U{1}'], entry, rest, workingDir);
  }

  lemma RegroupCommand(argument: string, rest: string, entry: string)
    ensures (argument + ['\U{1}'] + rest) + ['\U{1}'] + entry == argument + ['\U{1}'] + (rest + ['\U{1}'] + entry)
  {
  }

  lemma DifferentEntries(a: string, b: string)
    requires a != b
    ensures map[Name(a) := a] != map[Name(b) := b]
  {
    var m := map[Name(b) := b];
    assert Name(a) in m ==> m[Name(a)] == b;
    assert map[Name(a) := a][Name(a)] == a;
  }

  lemma Regroup(front: string, entry: string, rest: string, workingDir: string)
    ensures front + (entry + ['\U{2}'] + rest) + ['\U{2}'] + workingDir
      == front + entry + ['\U{2}'] + (rest + ['\U{2}'] + workingDir)
  {
    var tail := rest + ['\U{2}'] + workingDir;
    assert (entry + ['\U{2}'] + rest) + ['\U{2}'] + workingDir == entry + ['\U{2}'] + tail;
    assert front + (entry + ['\U{2}'] + rest) + ['\U{2}'] + workingDir
        == front + ((entry + ['\U{2}'] + rest) + ['\U{2}'] + workingDir);
  }
}
