/** `PSP4Command` (src/Commands.cs): the argument rewriting done before `p4`
    runs, and the choice between a registered handler and a plain call. */
module PSP4Command {
  import opened Wrappers
  import opened Text
  import opened Records
  import opened Arguments

  /** The arguments `p4 changes` runs with: the first `-my` is replaced by
      `-u <user> -c <client>` at the end of the list. */
  function ChangesArguments(args: seq<string>, info: ClientInfo): (r: seq<string>)
    ensures "-my" !in args ==> r == args
    ensures "-my" in args ==>
      && |r| == |args| + 3
      && r[|args| - 1..] == ["-u", info.userName, "-c", info.clientName]
      && DropsFirst(args, "-my", r[..|args| - 1])
  {
    if "-my" in args then
      var kept := RemoveFirst(args, "-my");
      var r := kept + ["-u", info.userName, "-c", info.clientName];
      assert r[..|args| - 1] == kept;
      r
    else args
  }

  /** The rewrite takes away exactly one `-my`, unless the user or client
      name is itself `-my`. */
  lemma ChangesArgumentsDropsOneMy(args: seq<string>, info: ClientInfo)
    requires "-my" in args && info.userName != "-my" && info.clientName != "-my"
    ensures multiset(ChangesArguments(args, info))["-my"] == multiset(args)["-my"] - 1
  {
    var kept := RemoveFirst(args, "-my");
    RemoveFirstCount(args, "-my");
    assert ChangesArguments(args, info) == kept + ["-u", info.userName, "-c", info.clientName];
  }

  lemma ChangesArgumentsAppend(args: seq<string>, info: ClientInfo)
    requires "-my" in args
    ensures ChangesArguments(args, info) == RemoveFirst(args, "-my") + ["-u", info.userName, "-c", info.clientName]
  {
  }

  /** `PSP4Command.Changes`: the argument list is rewritten in place, using
      the session's cached workspace. */
  method Changes(args: ArgumentList, cached: Option<ClientInfo>)
    requires "-my" in args.items ==> cached.Some?
    modifies args
    ensures "-my" in old(args.items) ==> args.items == ChangesArguments(old(args.items), cached.value)
    ensures "-my" !in old(args.items) ==> args.items == old(args.items)
  {
    var removed := args.Remove("-my");
    if removed {
      var info := cached.value;
      ghost var kept := args.items;
      ChangesArgumentsAppend(old(args.items), info);
      args.Add("-u");
      args.Add(info.userName);
      args.Add("-c");
      args.Add(info.clientName);
      assert args.items == kept + ["-u", info.userName, "-c", info.clientName];
    }
  }

  /** The handlers `Execute` knows, by lower-cased command name: only
      `changes` is rewritten before it runs. */
  predicate HasHandler(command: string) {
    Lower(command) == "changes"
  }

  /** `PSP4Command.Execute`: the registered handler rewrites the arguments,
      then `p4` runs the command, as the caller spelled it, with the
      arguments as they now stand. Running `p4` is the parameter `invoke`. */
  method Execute(command: string, args: ArgumentList, cached: Option<ClientInfo>,
                 invoke: (string, seq<string>) -> seq<string>)
    returns (output: seq<string>)
    requires HasHandler(command) && "-my" in args.items ==> cached.Some?
    modifies args
    ensures HasHandler(command) && "-my" in old(args.items) ==>
      args.items == ChangesArguments(old(args.items), cached.value)
    ensures !HasHandler(command) || "-my" !in old(args.items) ==> args.items == old(args.items)
    ensures output == invoke(command, args.items)
  {
    if HasHandler(command) {
      Changes(args, cached);
    }
    output := invoke(command, args.items);
  }
}

/** `InvokePSP4Cmdlet.ProcessRecord` (src/Commands.cs): the two presentation
    flags are taken out of the arguments before they reach `p4`. */
module SyntaxFlags {
  import opened Records
  import opened Arguments

  const LocalFlag := "-localsyntax"
  const DepotFlag := "-depotsyntax"

  lemma FlagsDiffer()
    ensures LocalFlag != DepotFlag
  {
    assert LocalFlag[1] != DepotFlag[1];
  }

  /** The arguments left once the first copy of each flag is taken out,
      every other argument keeping its place in the order (`-m 5` stays
      `-m 5`). The flags are matched exactly, as `List.Remove` compares
      strings, so another spelling (`-LocalSyntax`) reaches `p4` unchanged. */
  function WithoutFlags(args: seq<string>): (r: seq<string>)
    ensures exists mid :: DropsFirst(args, LocalFlag, mid) && DropsFirst(mid, DepotFlag, r)
    ensures LocalFlag !in args && DepotFlag !in args ==> r == args
  {
    RemoveFirst(RemoveFirst(args, LocalFlag), DepotFlag)
  }

  /** One copy of each flag present is taken out, and no other argument. */
  lemma WithoutFlagsCount(args: seq<string>)
    ensures |WithoutFlags(args)| ==
      |args| - (if LocalFlag in args then 1 else 0) - (if DepotFlag in args then 1 else 0)
    ensures multiset(WithoutFlags(args)) == multiset(args) - multiset{LocalFlag, DepotFlag}
  {
    var a1 := RemoveFirst(args, LocalFlag);
    RemoveFirstCount(args, LocalFlag);
    RemoveFirstCount(a1, DepotFlag);
    FlagsDiffer();
    assert multiset(a1)[DepotFlag] == multiset(args)[DepotFlag];
    assert (DepotFlag in a1) == (DepotFlag in args) by {
      assert (DepotFlag in a1) == (DepotFlag in multiset(a1));
      assert (DepotFlag in args) == (DepotFlag in multiset(args));
    }
    TakeTwo(multiset(args), LocalFlag, DepotFlag);
  }

  lemma TakeTwo(m: multiset<string>, x: string, y: string)
    ensures m - multiset{x} - multiset{y} == m - multiset{x, y}
  {
    forall z ensures (m - multiset{x} - multiset{y})[z] == (m - multiset{x, y})[z] {
    }
  }

  /** The syntax the flags select, and the arguments left for `p4`: the
      depot flag wins over the local one, and without either the paths
      are shown relative to the workspace. */
  function SelectedSyntax(args: seq<string>): (r: (FileSyntax, seq<string>))
    ensures r.0 == Depot <==> DepotFlag in args
    ensures r.0 == Local <==> LocalFlag in args && DepotFlag !in args
    ensures r.0 == LocalRelative <==> LocalFlag !in args && DepotFlag !in args
    ensures r.1 == WithoutFlags(args)
  {
    var syntax := if DepotFlag in args then Depot else if LocalFlag in args then Local else LocalRelative;
    (syntax, WithoutFlags(args))
  }

  /** The two `if (arguments.Remove(...))` statements of `ProcessRecord`. */
  method SelectSyntax(args: ArgumentList) returns (syntax: FileSyntax)
    modifies args
    ensures (syntax, args.items) == SelectedSyntax(old(args.items))
  {
    syntax := LocalRelative;
    FlagsDiffer();
    var local := args.Remove(LocalFlag);
    if local {
      syntax := Local;
    }
    var depot := args.Remove(DepotFlag);
    if depot {
      syntax := Depot;
    }
  }
}
