/**
 Starting the agent with extra arguments: a default option that an extra argument repeats is
 deleted from the default command line, together with its values, before the extra ones are added.
 */
module ProcessArgs {

  predicate IsFlag(token: string) {
    "--" <= token
  }

  /** A flag and the tokens up to the next one. */
  datatype Group = Group(flag: string, values: seq<string>)

  predicate AreGroups(gs: seq<Group>) {
    forall g | g in gs :: IsFlag(g.flag) && forall v | v in g.values :: !IsFlag(v)
  }

  /** How many tokens come before the first flag. */
  function Leading(line: seq<string>): (n: nat)
    ensures n <= |line| && (forall t | t in line[..n] :: !IsFlag(t)) && (n < |line| ==> IsFlag(line[n]))
  {
    if line == [] || IsFlag(line[0]) then 0 else 1 + Leading(line[1..])
  }

  function Groups(line: seq<string>): (gs: seq<Group>)
    requires line == [] || IsFlag(line[0])
    ensures AreGroups(gs)
    decreases |line|
  {
    if line == [] then []
    else
      var n := Leading(line[1..]);
      [Group(line[0], line[1..][..n])] + Groups(line[1..][n..])
  }

  function Flatten(gs: seq<Group>): seq<string> {
    if gs == [] then [] else [gs[0].flag] + gs[0].values + Flatten(gs[1..])
  }

  lemma {:induction false} FlattenGroups(line: seq<string>)
    requires line == [] || IsFlag(line[0])
    ensures Flatten(Groups(line)) == line
    decreases |line|
  {
    if line == [] {
    } else {
      var rest := line[1..];
      var n := Leading(rest);
      FlattenGroups(rest[n..]);
      FlattenCons(Group(line[0], rest[..n]), Groups(rest[n..]));
      FirstAndCut(line, n);
    }
  }

  lemma FirstAndCut(line: seq<string>, n: nat)
    requires line != [] && n <= |line[1..]|
    ensures line == [line[0]] + (line[1..][..n] + line[1..][n..])
  {
  }

  lemma FlattenCons(g: Group, gs: seq<Group>)
    ensures Flatten([g] + gs) == [g.flag] + (g.values + Flatten(gs))
  {
    assert ([g] + gs)[1..] == gs;
  }

  lemma {:induction false} FlattenBoth(a: seq<Group>, b: seq<Group>)
    ensures Flatten(a + b) == Flatten(a) + Flatten(b)
  {
    if a == [] {
      assert a + b == b;
    } else {
      FlattenBoth(a[1..], b);
      assert (a + b)[1..] == a[1..] + b;
      Associates([a[0].flag] + a[0].values, Flatten(a[1..]), Flatten(b));
    }
  }

  function Names(args: seq<string>): seq<string> {
    if args == [] then []
    else Names(args[..|args| - 1]) + if IsFlag(args[|args| - 1]) then [args[|args| - 1]] else []
  }

  function RemoveFirst(gs: seq<Group>, flag: string): seq<Group> {
    if gs == [] then []
    else if gs[0].flag == flag then gs[1..]
    else [gs[0]] + RemoveFirst(gs[1..], flag)
  }

  /** For every name in turn, the first group with that flag is removed. */
  function RemoveAll(gs: seq<Group>, names: seq<string>): seq<Group> {
    if names == [] then gs else RemoveFirst(RemoveAll(gs, names[..|names| - 1]), names[|names| - 1])
  }

  /** The command line the agent is started with. */
  function Overridden(line: seq<string>, args: seq<string>): seq<string> {
    line[..Leading(line)] + Flatten(RemoveAll(Groups(line[Leading(line)..]), Names(args))) + args
  }

  // ---------------------------------------------------------------------------
  // The loop that deletes tokens in place
  // ---------------------------------------------------------------------------

  /** The first group with the flag, or the number of groups. */
  function FirstWith(gs: seq<Group>, flag: string): (k: nat)
    ensures k <= |gs| && (forall g | g in gs[..k] :: g.flag != flag) && (k < |gs| ==> gs[k].flag == flag)
  {
    if gs == [] || gs[0].flag == flag then 0 else 1 + FirstWith(gs[1..], flag)
  }

  lemma {:induction false} RemoveFirstIs(gs: seq<Group>, flag: string)
    ensures var k := FirstWith(gs, flag); RemoveFirst(gs, flag) == if k < |gs| then gs[..k] + gs[k + 1..] else gs
  {
    if gs == [] || gs[0].flag == flag {
    } else {
      var k := FirstWith(gs[1..], flag);
      RemoveFirstIs(gs[1..], flag);
      if k < |gs[1..]| {
        WithoutLater(gs, k);
      } else {
        assert gs == [gs[0]] + gs[1..];
      }
    }
  }

  lemma WithoutLater(gs: seq<Group>, k: nat)
    requires gs != [] && k < |gs[1..]|
    ensures [gs[0]] + (gs[1..][..k] + gs[1..][k + 1..]) == gs[..k + 1] + gs[k + 2..]
  {
  }

  lemma {:induction false} RemoveAllGroups(gs: seq<Group>, names: seq<string>)
    requires AreGroups(gs)
    ensures AreGroups(RemoveAll(gs, names))
  {
    if names == [] {
    } else {
      var before, flag := RemoveAll(gs, names[..|names| - 1]), names[|names| - 1];
      RemoveAllGroups(gs, names[..|names| - 1]);
      RemoveFirstIs(before, flag);
    }
  }

  lemma {:induction false} FlagsOf(gs: seq<Group>, flag: string)
    requires AreGroups(gs) && IsFlag(flag)
    ensures flag in Flatten(gs) <==> exists g :: g in gs && g.flag == flag
    ensures Flatten(gs) != [] ==> IsFlag(Flatten(gs)[0])
  {
    if gs == [] {
    } else {
      FlagsOf(gs[1..], flag);
      assert gs == [gs[0]] + gs[1..];
      assert flag !in gs[0].values;
    }
  }

  method IndexOf(line: seq<string>, token: string) returns (index: nat)
    requires token in line
    ensures index < |line| && line[index] == token && forall i | 0 <= i < index :: line[i] != token
  {
    index := 0;
    while line[index] != token
      invariant index < |line| && (forall i | 0 <= i < index :: line[i] != token) && token in line[index..]
      decreases |line| - index
    {
      index := index + 1;
    }
  }

  method NamesOnly(args: seq<string>) returns (names: seq<string>)
    ensures names == Names(args)
  {
    names := [];
    for i := 0 to |args|
      invariant names == Names(args[..i])
    {
      assert args[..i + 1][..i] == args[..i];
      if IsFlag(args[i]) {
        names := names + [args[i]];
      }
    }
    assert args[..|args|] == args;
  }

  lemma Cut(gs: seq<Group>, k: nat)
    requires k < |gs|
    ensures Flatten(gs) == Flatten(gs[..k]) + ([gs[k].flag] + (gs[k].values + Flatten(gs[k + 1..])))
    ensures Flatten(gs[..k] + gs[k + 1..]) == Flatten(gs[..k]) + Flatten(gs[k + 1..])
  {
    assert gs == gs[..k] + gs[k..] && gs[k..] == [gs[k]] + gs[k + 1..];
    FlattenBoth(gs[..k], gs[k + 1..]);
    FlattenBoth(gs[..k], gs[k..]);
    FlattenCons(gs[k], gs[k + 1..]);
  }

  /** The first group with the flag, in the command line. */
  lemma Located(gs: seq<Group>, flag: string)
    requires AreGroups(gs) && IsFlag(flag) && flag in Flatten(gs)
    ensures FirstWith(gs, flag) < |gs|
    ensures var k := FirstWith(gs, flag);
            && flag !in Flatten(gs[..k]) && (forall v | v in gs[k].values :: !IsFlag(v))
            && (Flatten(gs[k + 1..]) == [] || IsFlag(Flatten(gs[k + 1..])[0]))
  {
    var k := FirstWith(gs, flag);
    FlagsOf(gs, flag);
    assert gs[..|gs|] == gs;
    assert k < |gs|;
    FlagsOf(gs[..k], flag);
    FlagsOf(gs[k + 1..], flag);
    assert gs[k] in gs;
  }

  /** Deletes the first such flag and what follows it up to the next flag. */
  method DeleteGroup(line: seq<string>, flag: string, ghost before: seq<string>, ghost values: seq<string>,
                     ghost after: seq<string>)
    returns (shorter: seq<string>)
    requires line == before + ([flag] + (values + after)) && flag !in before
    requires (forall v | v in values :: !IsFlag(v)) && (after == [] || IsFlag(after[0]))
    ensures shorter == before + after
  {
    assert (forall i | 0 <= i < |before| :: line[i] == before[i]) && line[|before|] == flag;
    var index := IndexOf(line, flag);
    assert index == |before|;
    shorter := line[..index] + line[index + 1..];
    ghost var j := 0;
    while index < |shorter| && !IsFlag(shorter[index])
      invariant 0 <= j <= |values| && shorter == before + (values[j..] + after)
      decreases |shorter|
    {
      assert shorter[index] == (values[j..] + after)[0];
      shorter := shorter[..index] + shorter[index + 1..];
      j := j + 1;
    }
    assert shorter[index..] == values[j..] + after;
    assert index < |shorter| ==> shorter[index] == (values[j..] + after)[0];
    assert values[j..] == [];
  }

  lemma Associates(a: seq<string>, b: seq<string>, c: seq<string>)
    ensures a + (b + c) == (a + b) + c
  {
  }

  /** One round of the loop: deletes the group, if there is one. */
  method Override(line: seq<string>, flag: string, ghost head: seq<string>, ghost gs: seq<Group>)
    returns (shorter: seq<string>)
    requires line == head + Flatten(gs) && (forall t | t in head :: !IsFlag(t)) && AreGroups(gs) && IsFlag(flag)
    ensures shorter == head + Flatten(RemoveFirst(gs, flag))
  {
    if flag in line {
      ghost var k := FirstWith(gs, flag);
      Located(gs, flag);
      RemoveFirstIs(gs, flag);
      Cut(gs, k);
      ghost var before, values, after := Flatten(gs[..k]), gs[k].values, Flatten(gs[k + 1..]);
      Associates(head, before, [flag] + (values + after));
      Associates(head, before, after);
      shorter := DeleteGroup(line, flag, head + before, values, after);
    } else {
      shorter := line;
      FlagsOf(gs, flag);
      RemoveFirstIs(gs, flag);
      assert gs[..|gs|] == gs && FirstWith(gs, flag) <= |gs|;
    }
  }

  lemma RemoveAllNext(gs: seq<Group>, names: seq<string>, i: nat)
    requires i < |names|
    ensures RemoveAll(gs, names[..i + 1]) == RemoveFirst(RemoveAll(gs, names[..i]), names[i])
  {
    assert names[..i + 1][..i] == names[..i];
  }

  method OverrideAll(line: seq<string>, names: seq<string>, ghost head: seq<string>, ghost gs: seq<Group>)
    returns (shorter: seq<string>)
    requires line == head + Flatten(gs) && (forall t | t in head :: !IsFlag(t)) && AreGroups(gs)
    requires forall n | n in names :: IsFlag(n)
    ensures shorter == head + Flatten(RemoveAll(gs, names))
  {
    shorter := line;
    for i := 0 to |names|
      invariant shorter == head + Flatten(RemoveAll(gs, names[..i]))
    {
      RemoveAllGroups(gs, names[..i]);
      shorter := Override(shorter, names[i], head, RemoveAll(gs, names[..i]));
      RemoveAllNext(gs, names, i);
    }
    assert names[..|names|] == names;
  }

  method StartArgs(line: seq<string>, args: seq<string>) returns (full: seq<string>)
    ensures full == Overridden(line, args)
    ensures |full| >= |args| && full[|full| - |args|..] == args
    ensures Leading(line) <= |full| && full[..Leading(line)] == line[..Leading(line)]
  {
    var names := NamesOnly(args);
    NamesAreFlags(args);
    ghost var n := Leading(line);
    assert line == line[..n] + Flatten(Groups(line[n..])) by {
      FlattenGroups(line[n..]);
    }
    var agentArgs := OverrideAll(line, names, line[..n], Groups(line[n..]));
    full := agentArgs + args;
    Ends(line[..n], Flatten(RemoveAll(Groups(line[n..]), names)), args);
  }

  lemma Ends(a: seq<string>, b: seq<string>, c: seq<string>)
    ensures var all := a + b + c; |all| >= |c| && all[|all| - |c|..] == c && |a| <= |all| && all[..|a|] == a
  {
  }

  lemma {:induction false} NamesAreFlags(args: seq<string>)
    ensures forall n | n in Names(args) :: IsFlag(n)
  {
    if args == [] {
    } else {
      NamesAreFlags(args[..|args| - 1]);
    }
  }

  // ---------------------------------------------------------------------------
  // Which groups stay
  // ---------------------------------------------------------------------------

  function CountFlag(gs: seq<Group>, flag: string): nat {
    if gs == [] then 0
    else CountFlag(gs[..|gs| - 1], flag) + if gs[|gs| - 1].flag == flag then 1 else 0
  }

  /** Those with at least as many groups of the same flag before them as the flag has overriding names. */
  function Kept(gs: seq<Group>, names: seq<string>): seq<Group> {
    if gs == [] then []
    else
      var earlier, last := gs[..|gs| - 1], gs[|gs| - 1];
      Kept(earlier, names) + if CountFlag(earlier, last.flag) >= multiset(names)[last.flag] then [last] else []
  }

  lemma CountAppend(gs: seq<Group>, g: Group, flag: string)
    ensures CountFlag(gs + [g], flag) == CountFlag(gs, flag) + if g.flag == flag then 1 else 0
  {
    assert (gs + [g])[..|gs|] == gs;
  }

  lemma KeptLast(gs: seq<Group>, names: seq<string>)
    requires gs != []
    ensures var earlier, last := gs[..|gs| - 1], gs[|gs| - 1];
            Kept(gs, names)
            == if CountFlag(earlier, last.flag) >= multiset(names)[last.flag] then Kept(earlier, names) + [last]
               else Kept(earlier, names)
  {
  }

  lemma {:induction false} KeptCounts(gs: seq<Group>, names: seq<string>, flag: string)
    ensures CountFlag(Kept(gs, names), flag)
         == if CountFlag(gs, flag) > multiset(names)[flag] then CountFlag(gs, flag) - multiset(names)[flag] else 0
  {
    if gs == [] {
    } else {
      var earlier, last := gs[..|gs| - 1], gs[|gs| - 1];
      KeptCounts(earlier, names, flag);
      KeptLast(gs, names);
      CountAppend(Kept(earlier, names), last, flag);
      assert CountFlag(gs, flag) == CountFlag(earlier, flag) + if last.flag == flag then 1 else 0;
    }
  }

  lemma {:induction false} RemoveFromFront(gs: seq<Group>, last: Group, flag: string)
    ensures CountFlag(gs, flag) > 0 ==> RemoveFirst(gs + [last], flag) == RemoveFirst(gs, flag) + [last]
    ensures CountFlag(gs, flag) == 0 ==> RemoveFirst(gs, flag) == gs
    ensures CountFlag(gs, flag) == 0 ==> RemoveFirst(gs + [last], flag) == if last.flag == flag then gs else gs + [last]
  {
    if gs == [] {
      assert gs + [last] == [last];
    } else {
      CountFromFront(gs, flag);
      RemoveFromFront(gs[1..], last, flag);
      RemoveFromLonger(gs, last, flag);
      assert gs == [gs[0]] + gs[1..];
    }
  }

  lemma RemoveFromLonger(gs: seq<Group>, last: Group, flag: string)
    requires gs != []
    ensures RemoveFirst(gs + [last], flag)
         == if gs[0].flag == flag then gs[1..] + [last] else [gs[0]] + RemoveFirst(gs[1..] + [last], flag)
  {
    assert (gs + [last])[1..] == gs[1..] + [last];
  }

  lemma {:induction false} CountFromFront(gs: seq<Group>, flag: string)
    requires gs != []
    ensures CountFlag(gs, flag) == (if gs[0].flag == flag then 1 else 0) + CountFlag(gs[1..], flag)
  {
    if |gs| > 1 {
      CountFromFront(gs[..|gs| - 1], flag);
      assert gs[..|gs| - 1][1..] == gs[1..][..|gs| - 2];
    }
  }

  lemma {:induction false} RemoveOneMore(gs: seq<Group>, names: seq<string>, flag: string)
    ensures RemoveFirst(Kept(gs, names), flag) == Kept(gs, names + [flag])
  {
    if gs == [] {
    } else {
      var earlier, last := gs[..|gs| - 1], gs[|gs| - 1];
      RemoveOneMore(earlier, names, flag);
      KeptCounts(earlier, names, flag);
      var kept, m := Kept(earlier, names), multiset(names);
      RemoveFromFront(kept, last, flag);
      assert multiset(names + [flag])[last.flag] == m[last.flag] + if last.flag == flag then 1 else 0;
      if last.flag == flag && CountFlag(earlier, flag) == m[flag] {
        assert Kept(gs, names) == kept + [last] && Kept(gs, names + [flag]) == Kept(earlier, names + [flag]) + [];
      } else if CountFlag(earlier, last.flag) >= m[last.flag] {
        assert Kept(gs, names) == kept + [last] && Kept(gs, names + [flag]) == Kept(earlier, names + [flag]) + [last];
      } else {
        assert Kept(gs, names) == kept + [] == kept;
        assert Kept(gs, names + [flag]) == Kept(earlier, names + [flag]) + [] == Kept(earlier, names + [flag]);
      }
    }
  }

  /**
   The loop removes, for every overriding name, the first group left with that flag: exactly the groups
   not `Kept`, and in their order.
   */
  lemma {:induction false} RemoveAllKeeps(gs: seq<Group>, names: seq<string>)
    ensures RemoveAll(gs, names) == Kept(gs, names)
  {
    if names == [] {
      KeptWithoutNames(gs);
    } else {
      var earlier := names[..|names| - 1];
      RemoveAllKeeps(gs, earlier);
      RemoveOneMore(gs, earlier, names[|names| - 1]);
      assert earlier + [names[|names| - 1]] == names;
    }
  }

  lemma LastAlone(gs: seq<Group>)
    requires gs != []
    ensures gs == gs[..|gs| - 1] + [gs[|gs| - 1]]
  {
  }

  lemma {:induction false} KeptWithoutNames(gs: seq<Group>)
    ensures Kept(gs, []) == gs
  {
    if gs == [] {
    } else {
      var earlier, last := gs[..|gs| - 1], gs[|gs| - 1];
      KeptWithoutNames(earlier);
      LastAlone(gs);
      assert Kept(gs, []) == Kept(earlier, []) + [last];
    }
  }

  /**
   No default of an overriding flag is left exactly when the arguments repeat the flag at least as
   often as the defaults do.
   */
  lemma NoDuplicateIff(gs: seq<Group>, args: seq<string>, flag: string)
    ensures CountFlag(RemoveAll(gs, Names(args)), flag) == 0 <==> CountFlag(gs, flag) <= multiset(Names(args))[flag]
    ensures multiset(Names(args))[flag] == 0 ==> CountFlag(RemoveAll(gs, Names(args)), flag) == CountFlag(gs, flag)
  {
    RemoveAllKeeps(gs, Names(args));
    KeptCounts(gs, Names(args), flag);
  }

  // ---------------------------------------------------------------------------
  // In the command line itself
  // ---------------------------------------------------------------------------

  lemma {:induction false} CountInLine(gs: seq<Group>, flag: string)
    requires AreGroups(gs) && IsFlag(flag)
    ensures multiset(Flatten(gs))[flag] == CountFlag(gs, flag)
  {
    if gs == [] {
    } else {
      CountFromFront(gs, flag);
      CountInLine(gs[1..], flag);
      assert gs[0] in gs && flag !in gs[0].values;
      assert multiset(Flatten(gs)) == multiset([gs[0].flag]) + multiset(gs[0].values) + multiset(Flatten(gs[1..]));
    }
  }

  lemma {:induction false} NamesCount(args: seq<string>, flag: string)
    requires IsFlag(flag)
    ensures multiset(Names(args))[flag] == multiset(args)[flag]
  {
    if args == [] {
    } else {
      var earlier, last := args[..|args| - 1], args[|args| - 1];
      NamesCount(earlier, flag);
      assert args == earlier + [last];
      assert multiset(Names(args)) == multiset(Names(earlier)) + if IsFlag(last) then multiset([last]) else multiset{};
    }
  }

  lemma CountBehind(head: seq<string>, tail: seq<string>, flag: string)
    requires flag !in head
    ensures multiset(head + tail)[flag] == multiset(tail)[flag]
  {
  }

  lemma CountFromCut(line: seq<string>, n: nat, flag: string)
    requires n <= |line| && flag !in line[..n]
    ensures multiset(line)[flag] == multiset(line[n..])[flag]
  {
    CountBehind(line[..n], line[n..], flag);
    Rejoined(line, n);
  }

  lemma LineCount(line: seq<string>, flag: string)
    requires IsFlag(flag)
    ensures multiset(line)[flag] == CountFlag(Groups(line[Leading(line)..]), flag)
  {
    CountFromCut(line, Leading(line), flag);
    FlattenGroups(line[Leading(line)..]);
    CountInLine(Groups(line[Leading(line)..]), flag);
  }

  lemma LeftCount(head: seq<string>, left: seq<Group>, args: seq<string>, flag: string)
    requires flag !in head && AreGroups(left) && IsFlag(flag)
    ensures multiset(head + Flatten(left) + args)[flag] == CountFlag(left, flag) + multiset(args)[flag]
  {
    CountBehind(head, Flatten(left), flag);
    CountInLine(left, flag);
    assert multiset(head + Flatten(left) + args) == multiset(head + Flatten(left)) + multiset(args);
  }

  /**
   Every token that begins with two dashes comes as often in the command line the agent is started with as in the
   defaults or in the arguments, whichever is more.
   */
  lemma FlagCounts(line: seq<string>, args: seq<string>, flag: string)
    requires "--" <= flag
    ensures var given, asked := multiset(line)[flag], multiset(args)[flag];
            multiset(Overridden(line, args))[flag] == if given > asked then given else asked
  {
    var n := Leading(line);
    var gs := Groups(line[n..]);
    LineCount(line, flag);
    RemoveAllGroups(gs, Names(args));
    LeftCount(line[..n], RemoveAll(gs, Names(args)), args, flag);
    RemoveAllKeeps(gs, Names(args));
    KeptCounts(gs, Names(args), flag);
    NamesCount(args, flag);
  }

  /** If no token of the arguments that begins with two dashes is among the defaults, nothing is deleted. */
  lemma NothingDeleted(line: seq<string>, args: seq<string>)
    requires forall t | t in args && "--" <= t :: t !in line
    ensures Overridden(line, args) == line + args
  {
    var gs := Groups(line[Leading(line)..]);
    NamesAreFlags(args);
    NamesAreArguments(args);
    forall flag | flag in Names(args) ensures CountFlag(gs, flag) == 0 {
      NotThere(line, flag);
    }
    NothingRemoved(gs, Names(args));
    WholeLine(line);
  }

  lemma NotThere(line: seq<string>, flag: string)
    requires IsFlag(flag) && flag !in line
    ensures CountFlag(Groups(line[Leading(line)..]), flag) == 0
  {
    LineCount(line, flag);
  }

  lemma WholeLine(line: seq<string>)
    ensures line[..Leading(line)] + Flatten(Groups(line[Leading(line)..])) == line
  {
    FlattenGroups(line[Leading(line)..]);
    Rejoined(line, Leading(line));
  }

  lemma Rejoined(line: seq<string>, n: nat)
    requires n <= |line|
    ensures line[..n] + line[n..] == line
  {
  }

  lemma {:induction false} NamesAreArguments(args: seq<string>)
    ensures forall n | n in Names(args) :: n in args
  {
    if args == [] {
    } else {
      NamesAreArguments(args[..|args| - 1]);
    }
  }

  lemma {:induction false} NothingRemoved(gs: seq<Group>, names: seq<string>)
    requires forall flag | flag in names :: CountFlag(gs, flag) == 0
    ensures RemoveAll(gs, names) == gs
  {
    if names == [] {
    } else {
      var last := names[|names| - 1];
      assert last in names && forall flag | flag in names[..|names| - 1] :: flag in names;
      NothingRemoved(gs, names[..|names| - 1]);
      RemoveFromFront(gs, Group("", []), last);
    }
  }
}
