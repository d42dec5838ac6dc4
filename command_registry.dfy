/**
  The directory of commands: names are folded to lower case on the way in and
  on every lookup, so lookups ignore case and a later registration under the
  same folded name replaces an earlier one.

  The class keeps, as a ghost record, every registration made so far; the map
  it really holds is proved to be the one that history determines.
 */
module Registry {
  import opened Wrappers

  /** Lower-casing of one character (ASCII letters only). */
  function LowerChar(c: char): (d: char)
    ensures 'A' <= c <= 'Z' ==> d as int == c as int + 32
    ensures !('A' <= c <= 'Z') ==> d == c
  {
    if 'A' <= c <= 'Z' then (c as int + 32) as char else c
  }

  /** `toLowerCase`, restricted to ASCII letters. */
  function ToLower(s: string): (r: string)
    ensures |r| == |s|
    ensures forall i :: 0 <= i < |s| ==> r[i] == LowerChar(s[i])
  {
    seq(|s|, i requires 0 <= i < |s| => LowerChar(s[i]))
  }

  /** Folding is idempotent: a folded name is its own key. */
  lemma ToLowerIdempotent(s: string)
    ensures ToLower(ToLower(s)) == ToLower(s)
  {
  }

  /** Two names denote the same entry when they fold to the same key. */
  predicate SameName(a: string, b: string) {
    ToLower(a) == ToLower(b)
  }

  /** A registration: the name as given and the command. */
  datatype Registration<C> = Registration(name: string, command: C)

  /**
    The reference meaning of a lookup: the command of the latest registration
    whose name folds like `name`, if there is one.
   */
  function LastRegistered<C>(history: seq<Registration<C>>, name: string): Option<C>
  {
    if history == [] then None
    else
      var last := history[|history| - 1];
      if SameName(last.name, name) then Some(last.command)
      else LastRegistered(history[..|history| - 1], name)
  }

  /** The map that replaying `history` with `put(name.toLowerCase(), command)` builds. */
  function Directory<C>(history: seq<Registration<C>>): map<string, C>
  {
    if history == [] then map[]
    else
      var last := history[|history| - 1];
      Directory(history[..|history| - 1])[ToLower(last.name) := last.command]
  }

  /** Looking the folded name up in the map is the latest matching registration. */
  lemma {:induction false} DirectoryLookup<C>(history: seq<Registration<C>>, name: string)
    ensures ToLower(name) in Directory(history) <==> LastRegistered(history, name).Some?
    ensures ToLower(name) in Directory(history) ==>
      Directory(history)[ToLower(name)] == LastRegistered(history, name).value
  {
    if history != [] {
      DirectoryLookup(history[..|history| - 1], name);
    }
  }

  /** The keys are exactly the folded forms of the names ever registered. */
  lemma {:induction false} DirectoryKeys<C>(history: seq<Registration<C>>)
    ensures Directory(history).Keys == set i | 0 <= i < |history| :: ToLower(history[i].name)
  {
    if history != [] {
      var init := history[..|history| - 1];
      DirectoryKeys(init);
      var s := set i | 0 <= i < |history| :: ToLower(history[i].name);
      var t := set i | 0 <= i < |init| :: ToLower(init[i].name);
      assert s == t + {ToLower(history[|history| - 1].name)} by {
        forall k | k in s ensures k in t + {ToLower(history[|history| - 1].name)} {
          var i :| 0 <= i < |history| && k == ToLower(history[i].name);
          if i < |init| {
            assert init[i] == history[i];
          }
        }
        forall k | k in t ensures k in s {
          var i :| 0 <= i < |init| && k == ToLower(init[i].name);
          assert init[i] == history[i];
        }
      }
    }
  }

  /** A lookup finds something exactly when some registration used a name folding the same way. */
  lemma {:induction false} RegisteredIff<C>(history: seq<Registration<C>>, name: string)
    ensures LastRegistered(history, name).Some? <==>
      exists i :: 0 <= i < |history| && SameName(history[i].name, name)
  {
    if history != [] {
      var init := history[..|history| - 1];
      RegisteredIff(init, name);
      if exists i :: 0 <= i < |history| && SameName(history[i].name, name) {
        var i :| 0 <= i < |history| && SameName(history[i].name, name);
        if i < |init| {
          assert init[i] == history[i];
        }
      }
      if exists i :: 0 <= i < |init| && SameName(init[i].name, name) {
        var i :| 0 <= i < |init| && SameName(init[i].name, name);
        assert init[i] == history[i];
      }
    }
  }

  /** A new registration is what every name folding like it now finds. */
  lemma RegisterThenGet<C>(history: seq<Registration<C>>, name: string, command: C, query: string)
    requires SameName(name, query)
    ensures LastRegistered(history + [Registration(name, command)], query) == Some(command)
  {
  }

  /** A new registration leaves every differently folding name as it was. */
  lemma RegisterOther<C>(history: seq<Registration<C>>, name: string, command: C, query: string)
    requires !SameName(name, query)
    ensures LastRegistered(history + [Registration(name, command)], query) == LastRegistered(history, query)
  {
    var h := history + [Registration(name, command)];
    assert h[..|h| - 1] == history;
  }

  /** Registering twice under one folded name: the second wins, the first leaves no trace. */
  lemma LastRegistrationWins<C>(history: seq<Registration<C>>, n1: string, c1: C, n2: string, c2: C)
    requires SameName(n1, n2)
    ensures Directory(history + [Registration(n1, c1), Registration(n2, c2)])
         == Directory(history + [Registration(n2, c2)])
  {
    var h := history + [Registration(n1, c1), Registration(n2, c2)];
    assert h[..|h| - 1] == history + [Registration(n1, c1)];
    var g := history + [Registration(n2, c2)];
    assert g[..|g| - 1] == history;
    var h1 := history + [Registration(n1, c1)];
    assert h1[..|h1| - 1] == history;
  }

  /** The registry object: a mutable map from folded names to commands. */
  class CommandRegistry<C> {
    var commands: map<string, C>
    ghost var history: seq<Registration<C>>

    ghost predicate Valid()
      reads this
    {
      commands == Directory(history)
    }

    constructor ()
      ensures Valid() && history == [] && commands == map[]
    {
      commands := map[];
      history := [];
    }

    /** `register`: put under the folded name, replacing any earlier entry. */
    method Register(name: string, command: C)
      requires Valid()
      modifies this
      ensures Valid()
      ensures history == old(history) + [Registration(name, command)]
      ensures commands == old(commands)[ToLower(name) := command]
    {
      commands := commands[ToLower(name) := command];
      history := history + [Registration(name, command)];
      assert history[..|history| - 1] == old(history);
    }

    /** `get`: the command of the latest registration under the same folded name, or none. */
    function Get(name: string): (r: Option<C>)
      reads this
      requires Valid()
      ensures r == LastRegistered(history, name)
    {
      DirectoryLookup(history, name);
      var key := ToLower(name);
      if key in commands then Some(commands[key]) else None
    }

    /** `hasCommand`: whether some registration used a name folding like `name`. */
    function HasCommand(name: string): (b: bool)
      reads this
      requires Valid()
      ensures b <==> exists i :: 0 <= i < |history| && SameName(history[i].name, name)
      ensures b <==> Get(name).Some?
    {
      DirectoryLookup(history, name);
      RegisteredIff(history, name);
      ToLower(name) in commands
    }

    /**
      `getCommandNames`: the folded names of all registrations, each of which
      resolves through `Get`. Reading them changes nothing.
     */
    function GetCommandNames(): (names: set<string>)
      reads this
      requires Valid()
      ensures names == set i | 0 <= i < |history| :: ToLower(history[i].name)
      ensures forall n :: n in names ==> ToLower(n) == n && Get(n).Some?
    {
      DirectoryKeys(history);
      assert forall n :: n in commands.Keys ==> ToLower(n) == n && Get(n).Some? by {
        forall n | n in commands.Keys ensures ToLower(n) == n && Get(n).Some? {
          var i :| 0 <= i < |history| && n == ToLower(history[i].name);
          ToLowerIdempotent(history[i].name);
          DirectoryLookup(history, n);
        }
      }
      commands.Keys
    }
  }
}
