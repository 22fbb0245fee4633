/**
 * The command-line tool's command registry and usage line
 * (cli/Command.cpp). Each command registers itself by name from a static
 * constructor, in an order the linker decides, so the registrations are
 * an input sequence here. The registry map is created by the first
 * registration; before that, lookups find nothing.
 */
module Command {
  import opened Wrappers

  /**
   * How far the tool must initialise before a command runs. The order is
   * that of the InitLevel enumeration, which is declared in a header that
   * is not part of this model: none (NoLevel), context, lobby, login, account, wallet.
   */
  datatype InitLevel = NoLevel | Context | Lobby | Login | Account | Wallet

  function Rank(l: InitLevel): nat {
    match l
    case NoLevel => 0
    case Context => 1
    case Lobby => 2
    case Login => 3
    case Account => 4
    case Wallet => 5
  }

  predicate AtLeast(l: InitLevel, min: InitLevel) {
    Rank(min) <= Rank(l)
  }

  /** A command: its name, the rest of its usage line, and the level it needs. */
  datatype Cmd = Cmd(name: string, help: string, level: InitLevel)

  /** The global map, absent until the first registration. */
  type Registry = Option<map<string, Cmd>>

  /**
   * CommandRegistry's constructor: creates the map when needed, warns when
   * the name is already taken, and stores the command under the name
   * either way, replacing the older one.
   */
  function Register(reg: Registry, name: string, c: Cmd): (r: (bool, Registry))
    ensures r.1.Some?
    ensures r.0 <==> reg.Some? && name in reg.value
    ensures name in r.1.value && r.1.value[name] == c
    ensures r.1.value.Keys == (if reg.Some? then reg.value.Keys else {}) + {name}
    ensures reg.Some? ==> forall n | n in reg.value && n != name :: r.1.value[n] == reg.value[n]
  {
    var m := if reg.Some? then reg.value else map[];
    (name in m, Some(m[name := c]))
  }

  /** CommandRegistry::find: nothing before the first registration or for an unknown name. */
  function Find(reg: Registry, name: string): (r: Option<Cmd>)
    ensures r.Some? <==> reg.Some? && name in reg.value
    ensures r.Some? ==> r.value == reg.value[name]
  {
    if reg.None? then None
    else if name !in reg.value then None
    else Some(reg.value[name])
  }

  /** Every registration in turn, from the empty program state; the warnings in order. */
  function RegisterAll(regs: seq<(string, Cmd)>): (r: (seq<bool>, Registry))
    ensures |r.0| == |regs|
    ensures regs == [] <==> r.1.None?
    decreases |regs|
  {
    if regs == [] then ([], None)
    else
      var before := RegisterAll(regs[..|regs| - 1]);
      var step := Register(before.1, regs[|regs| - 1].0, regs[|regs| - 1].1);
      (before.0 + [step.0], step.1)
  }

  /** The command registered last under a name, if any: the reference reading of the registry. */
  function LastRegistered(regs: seq<(string, Cmd)>, name: string): (r: Option<Cmd>)
    decreases |regs|
  {
    if regs == [] then None
    else if regs[|regs| - 1].0 == name then Some(regs[|regs| - 1].1)
    else LastRegistered(regs[..|regs| - 1], name)
  }

  /** After all registrations, find returns the last command registered under the name. */
  lemma {:induction false} FindLastRegistered(regs: seq<(string, Cmd)>, name: string)
    ensures Find(RegisterAll(regs).1, name) == LastRegistered(regs, name)
    decreases |regs|
  {
    if regs != [] {
      FindLastRegistered(regs[..|regs| - 1], name);
    }
  }

  /** The names registered so far. */
  function Names(regs: seq<(string, Cmd)>): (r: set<string>)
    decreases |regs|
  {
    if regs == [] then {} else Names(regs[..|regs| - 1]) + {regs[|regs| - 1].0}
  }

  function CountTrue(bs: seq<bool>): nat
    decreases |bs|
  {
    if bs == [] then 0 else CountTrue(bs[..|bs| - 1]) + (if bs[|bs| - 1] then 1 else 0)
  }

  /** The registry's names are the names registered so far. */
  lemma {:induction false} RegisteredNames(regs: seq<(string, Cmd)>)
    ensures RegisterAll(regs).1.Some? ==> RegisterAll(regs).1.value.Keys == Names(regs)
    decreases |regs|
  {
    if regs != [] {
      RegisteredNames(regs[..|regs| - 1]);
    }
  }

  /** The last registration warns exactly when its name was registered before. */
  lemma LastWarning(regs: seq<(string, Cmd)>)
    requires regs != []
    ensures var init := regs[..|regs| - 1];
      RegisterAll(regs).0 == RegisterAll(init).0 + [regs[|regs| - 1].0 in Names(init)]
  {
    RegisteredNames(regs[..|regs| - 1]);
  }

  /** Each registration warns exactly when its name was registered before it. */
  lemma {:induction false} WarnsOnRepeat(regs: seq<(string, Cmd)>)
    ensures forall i | 0 <= i < |regs| :: RegisterAll(regs).0[i] <==> regs[i].0 in Names(regs[..i])
    decreases |regs|
  {
    if regs != [] {
      var init := regs[..|regs| - 1];
      WarnsOnRepeat(init);
      LastWarning(regs);
      var w0 := RegisterAll(init).0;
      var w := RegisterAll(regs).0;
      forall i | 0 <= i < |regs|
        ensures w[i] <==> regs[i].0 in Names(regs[..i])
      {
        if i < |regs| - 1 {
          assert regs[..i] == init[..i];
          assert w[i] == w0[i];
        } else {
          assert regs[..i] == init;
        }
      }
    }
  }

  /** The warnings count the registrations whose name was already taken. */
  lemma {:induction false} WarningsCount(regs: seq<(string, Cmd)>)
    ensures CountTrue(RegisterAll(regs).0) + |Names(regs)| == |regs|
    decreases |regs|
  {
    if regs != [] {
      var init := regs[..|regs| - 1];
      var last := regs[|regs| - 1];
      WarningsCount(init);
      LastWarning(regs);
      var w := RegisterAll(regs).0;
      assert w[..|w| - 1] == RegisterAll(init).0;
      if last.0 in Names(init) {
        assert Names(regs) == Names(init);
      } else {
        assert |Names(regs)| == |Names(init)| + 1;
      }
    }
  }

  /**
   * A registration warns exactly when its name was registered before, so
   * the registry holds one command per distinct name and the warnings
   * count the rest.
   */
  lemma WarningsCountDuplicates(regs: seq<(string, Cmd)>)
    ensures RegisterAll(regs).1.Some? ==> RegisterAll(regs).1.value.Keys == Names(regs)
    ensures CountTrue(RegisterAll(regs).0) + |Names(regs)| == |regs|
    ensures forall i | 0 <= i < |regs| :: RegisterAll(regs).0[i] <==> regs[i].0 in Names(regs[..i])
  {
    RegisteredNames(regs);
    WarningsCount(regs);
    WarnsOnRepeat(regs);
  }

  // ---------------------------------------------------------------------
  // Usage line

  const USAGE_PREFIX: string := "usage: abc-cli"
  const DIR_OPTION: string := " [-d <dir>]"
  const USERNAME_OPTION: string := " [-u <username>]"
  const PASSWORD_OPTION: string := " [-p <password>]"
  const WALLET_OPTION: string := " [-w <wallet>]"

  /** The global options a command at this level accepts, in the order the usage line lists them. */
  function Options(level: InitLevel): (r: seq<string>)
    ensures DIR_OPTION in r <==> AtLeast(level, Context)
    ensures USERNAME_OPTION in r <==> AtLeast(level, Lobby)
    ensures PASSWORD_OPTION in r <==> AtLeast(level, Login)
    ensures WALLET_OPTION in r <==> AtLeast(level, Wallet)
    ensures |r| <= 4
  {
    (if AtLeast(level, Context) then [DIR_OPTION] else [])
    + (if AtLeast(level, Lobby) then [USERNAME_OPTION] else [])
    + (if AtLeast(level, Login) then [PASSWORD_OPTION] else [])
    + (if AtLeast(level, Wallet) then [WALLET_OPTION] else [])
  }

  /** The options always come in the order -d, -u, -p, -w: a level's list is a prefix of that order. */
  lemma OptionsOrder(level: InitLevel)
    ensures Options(level) == [DIR_OPTION, USERNAME_OPTION, PASSWORD_OPTION, WALLET_OPTION][..|Options(level)|]
  {
  }

  /** A command needing more initialisation lists every option a lesser one does, in the same order. */
  lemma OptionsGrow(lo: InitLevel, hi: InitLevel)
    requires Rank(lo) <= Rank(hi)
    ensures Options(lo) <= Options(hi)
  {
  }

  function Concat(parts: seq<string>): string
    decreases |parts|
  {
    if parts == [] then "" else parts[0] + Concat(parts[1..])
  }

  /**
   * helpString: the usage line, with the global options the command's
   * level accepts, then the command's name and its own help text.
   */
  function HelpString(c: Cmd): (r: string)
    ensures |USAGE_PREFIX| <= |r| && r[..|USAGE_PREFIX|] == USAGE_PREFIX
    ensures var tail := " " + c.name + c.help; |tail| <= |r| && r[|r| - |tail|..] == tail
  {
    var tail := " " + c.name + c.help;
    Affixes(USAGE_PREFIX, Concat(Options(c.level)), tail);
    USAGE_PREFIX + Concat(Options(c.level)) + tail
  }

  lemma Affixes(a: string, b: string, c: string)
    ensures (a + b + c)[..|a|] == a && (a + b + c)[|a + b|..] == c
  {
    assert a + b + c == a + (b + c);
  }

  /** Joining up to four parts, written out. */
  lemma ConcatFour(a: string, b: string, c: string, d: string)
    ensures Concat([a]) == a
    ensures Concat([a, b]) == a + b
    ensures Concat([a, b, c]) == a + b + c
    ensures Concat([a, b, c, d]) == a + b + c + d
  {
    assert [a, b, c, d][1..] == [b, c, d] && [b, c, d][1..] == [c, d] && [c, d][1..] == [d];
    assert [a, b, c][1..] == [b, c] && [b, c][1..] == [c];
    assert [a, b][1..] == [b];
    assert Concat([d]) == d && Concat([c]) == c && Concat([b]) == b;
    assert Concat([c, d]) == c + d && Concat([b, c]) == b + c;
    assert Concat([b, c, d]) == b + (c + d) == b + c + d;
    assert Concat([a, b, c]) == a + (b + c) == a + b + c;
    assert Concat([a, b, c, d]) == a + (b + c + d) == a + b + c + d;
  }

  /** The global options of each level as the usage line spells them, in the order -d, -u, -p, -w. */
  function LevelText(level: InitLevel): string {
    match level
    case NoLevel => ""
    case Context => DIR_OPTION
    case Lobby => DIR_OPTION + USERNAME_OPTION
    case Login => DIR_OPTION + USERNAME_OPTION + PASSWORD_OPTION
    case Account => DIR_OPTION + USERNAME_OPTION + PASSWORD_OPTION
    case Wallet => DIR_OPTION + USERNAME_OPTION + PASSWORD_OPTION + WALLET_OPTION
  }

  /** The options of each level, joined, are that level's text. */
  lemma OptionsText(level: InitLevel)
    ensures Concat(Options(level)) == LevelText(level)
  {
    ConcatFour(DIR_OPTION, USERNAME_OPTION, PASSWORD_OPTION, WALLET_OPTION);
    var opts := Options(level);
    match level
    case NoLevel =>
    case Context => assert opts == [DIR_OPTION];
    case Lobby => assert opts == [DIR_OPTION, USERNAME_OPTION];
    case Login => assert opts == [DIR_OPTION, USERNAME_OPTION, PASSWORD_OPTION];
    case Account => assert opts == [DIR_OPTION, USERNAME_OPTION, PASSWORD_OPTION];
    case Wallet => assert opts == [DIR_OPTION, USERNAME_OPTION, PASSWORD_OPTION, WALLET_OPTION];
  }

  /** The usage line of each level: the prefix, the level's options in order, then the command. */
  lemma HelpStringLevels(c: Cmd)
    ensures HelpString(c) == USAGE_PREFIX + LevelText(c.level) + (" " + c.name + c.help)
  {
    OptionsText(c.level);
  }
}
