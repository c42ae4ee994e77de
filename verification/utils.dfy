/** Helpers of the console: highlighting a case-insensitive substring in
    colour markup, and the name tree of a command group. */
module Utils {
  import opened Base

  // ---------------------------------------------------------------------
  // Case-insensitive literal matching

  /** The pattern p occurs at index i of t, ignoring ASCII case. */
  predicate MatchesAt(t: string, p: string, i: nat) {
    i + |p| <= |t| && Lower(t[i..i + |p|]) == Lower(p)
  }

  /** The start positions of the non-overlapping matches of p in t at or
      after k, leftmost first, as a regular-expression scan finds them. */
  function MatchesFrom(t: string, p: string, k: nat): seq<nat>
    requires |p| > 0
    decreases |t| - k
  {
    if k + |p| > |t| then []
    else if MatchesAt(t, p, k) then [k] + MatchesFrom(t, p, k + |p|)
    else MatchesFrom(t, p, k + 1)
  }

  /** t from k on with every match of the scan replaced by rep. */
  function SubFrom(t: string, p: string, rep: string, k: nat): string
    requires |p| > 0 && k <= |t|
    decreases |t| - k
  {
    if k + |p| > |t| then t[k..]
    else if MatchesAt(t, p, k) then rep + SubFrom(t, p, rep, k + |p|)
    else [t[k]] + SubFrom(t, p, rep, k + 1)
  }

  /** The matched texts, in their original casing. */
  function FindAll(t: string, p: string): (ms: seq<string>)
    requires |p| > 0
  {
    var ps := MatchesFrom(t, p, 0);
    seq(|ps|, j requires 0 <= j < |ps| => if ps[j] + |p| <= |t| then t[ps[j]..ps[j] + |p|] else [])
  }

  /** The markup around a match. */
  function Tag(color: string, m: string): string {
    "[" + color + "]" + m + "[/" + color + "]"
  }

  /** One substitution per found match, in order: each one replaces every
      match of the current string with the tagged found text. */
  function Rewritten(t: string, p: string, color: string, found: seq<string>): string
    requires |p| > 0
    decreases |found|
  {
    if found == [] then t
    else Rewritten(SubFrom(t, p, Tag(color, found[0]), 0), p, color, found[1..])
  }

  /** What highlight returns for a non-empty pattern. */
  function Highlighted(t: string, p: string, color: string): string
    requires |p| > 0
  {
    Rewritten(t, p, color, FindAll(t, p))
  }

  /** Every position the scan finds is a match, the positions are increasing
      and no two matches overlap. */
  lemma {:induction false} MatchesSound(t: string, p: string, k: nat)
    requires |p| > 0
    ensures forall j :: 0 <= j < |MatchesFrom(t, p, k)| ==>
      k <= MatchesFrom(t, p, k)[j] && MatchesAt(t, p, MatchesFrom(t, p, k)[j])
    ensures forall j :: 0 < j < |MatchesFrom(t, p, k)| ==>
      MatchesFrom(t, p, k)[j - 1] + |p| <= MatchesFrom(t, p, k)[j]
    decreases |t| - k
  {
    if k + |p| <= |t| {
      MatchesSound(t, p, if MatchesAt(t, p, k) then k + |p| else k + 1);
    }
  }

  /** The scan finds nothing exactly when p does not occur at or after k. */
  lemma {:induction false} NoMatchesIffAbsent(t: string, p: string, k: nat)
    requires |p| > 0
    ensures MatchesFrom(t, p, k) == [] <==> forall j :: k <= j ==> !MatchesAt(t, p, j)
    decreases |t| - k
  {
    if k + |p| <= |t| && !MatchesAt(t, p, k) {
      NoMatchesIffAbsent(t, p, k + 1);
      forall j | k <= j && MatchesAt(t, p, j) ensures k + 1 <= j {
      }
    }
  }

  /** Without a match, substitution leaves the rest of the string as it is. */
  lemma {:induction false} SubFromNoMatch(t: string, p: string, rep: string, k: nat)
    requires |p| > 0 && k <= |t|
    requires MatchesFrom(t, p, k) == []
    ensures SubFrom(t, p, rep, k) == t[k..]
    decreases |t| - k
  {
    if k + |p| <= |t| {
      SubFromNoMatch(t, p, rep, k + 1);
      assert [t[k]] + t[k + 1..] == t[k..];
    }
  }

  /** With a single match at i, substitution splices rep in at i. */
  lemma {:induction false} SubFromOneMatch(t: string, p: string, rep: string, k: nat, i: nat)
    requires |p| > 0 && k <= |t|
    requires MatchesFrom(t, p, k) == [i]
    ensures k <= i && MatchesAt(t, p, i)
    ensures SubFrom(t, p, rep, k) == t[k..i] + rep + t[i + |p|..]
    decreases |t| - k
  {
    assert k + |p| <= |t|;
    if MatchesAt(t, p, k) {
      var rest := MatchesFrom(t, p, k + |p|);
      assert [i] == [k] + rest;
      assert ([k] + rest)[0] == k && |[k] + rest| == 1 + |rest|;
      assert i == k && rest == [];
      SubFromNoMatch(t, p, rep, k + |p|);
      assert SubFrom(t, p, rep, k) == rep + t[k + |p|..];
    } else {
      assert MatchesFrom(t, p, k) == MatchesFrom(t, p, k + 1);
      SubFromOneMatch(t, p, rep, k + 1, i);
      assert SubFrom(t, p, rep, k) == [t[k]] + SubFrom(t, p, rep, k + 1);
      assert [t[k]] + t[k + 1..i] == t[k..i];
    }
  }

  /** With no case-insensitive occurrence of p, highlighting returns the text. */
  lemma HighlightAbsent(t: string, p: string, color: string)
    requires |p| > 0
    requires forall j :: !MatchesAt(t, p, j)
    ensures Highlighted(t, p, color) == t
  {
    NoMatchesIffAbsent(t, p, 0);
  }

  /** With exactly one occurrence, at i, highlighting wraps that occurrence,
      in its original casing, in the colour tags; the rest is unchanged. */
  lemma HighlightOneMatch(t: string, p: string, color: string, i: nat)
    requires |p| > 0
    requires MatchesFrom(t, p, 0) == [i]
    ensures i + |p| <= |t| && Lower(t[i..i + |p|]) == Lower(p)
    ensures Highlighted(t, p, color) == t[..i] + Tag(color, t[i..i + |p|]) + t[i + |p|..]
  {
    SubFromOneMatch(t, p, [], 0, i);
    var m := t[i..i + |p|];
    SubFromOneMatch(t, p, Tag(color, m), 0, i);
    var found := FindAll(t, p);
    assert |found| == 1 && found[0] == m;
    assert found == [m];
    assert found[1..] == [];
    assert Highlighted(t, p, color) == Rewritten(t, p, color, found);
    assert Rewritten(t, p, color, found) == Rewritten(SubFrom(t, p, Tag(color, m), 0), p, color, []);
    assert t[0..i] == t[..i];
  }

  /** The match is case-insensitive: a match in any casing is found. */
  lemma HighlightIgnoresCase()
    ensures MatchesFrom("Run", "rUN", 0) == [0]
    ensures Highlighted("Run", "rUN", "red") == "[red]Run[/red]"
  {
    assert MatchesAt("Run", "rUN", 0) by {
      assert Lower("Run") == "run";
      assert Lower("rUN") == "run";
    }
    HighlightOneMatch("Run", "rUN", "red", 0);
  }

  /** `highlight`: the text unchanged for a missing or empty pattern;
      otherwise one substitution per match found in the original text. */
  method Highlight(text: string, sub: Option<string>, color: string) returns (r: string)
    ensures sub.None? || sub.value == [] ==> r == text
    ensures sub.Some? && sub.value != [] ==> r == Highlighted(text, sub.value, color)
  {
    if sub.None? || |sub.value| == 0 {
      return text;
    }
    var p := sub.value;
    var found := FindAll(text, p);
    r := text;
    for k := 0 to |found|
      invariant Rewritten(text, p, color, found) == Rewritten(r, p, color, found[k..])
    {
      assert found[k..][1..] == found[k + 1..];
      r := SubFrom(r, p, Tag(color, found[k]), 0);
    }
  }

  // ---------------------------------------------------------------------
  // Command tree

  /** A command, or a group holding named commands in registration order. */
  datatype CliCommand = Command | Group(commands: seq<(string, CliCommand)>)

  /** The name tree: None for a command, the sub-tree for a group. */
  datatype Listing = Listing(entries: map<string, Option<Listing>>)

  /** The names registered in a group. */
  function Names(commands: seq<(string, CliCommand)>): set<string> {
    set i | 0 <= i < |commands| :: commands[i].0
  }

  /** No later registration in commands reuses the name registered at i. */
  predicate LastOfName(commands: seq<(string, CliCommand)>, i: int) {
    0 <= i < |commands| && forall j :: i < j < |commands| ==> commands[j].0 != commands[i].0
  }

  /** The entry of one registered command: None for a command, and for a
      group the name tree of its own commands. */
  function Entry(c: CliCommand): Option<Listing>
    decreases c, 1
  {
    match c
    case Command => None
    case Group(sub) => Some(TyperCommands(sub))
  }

  /** `get_typer_commands` on the commands of a group: the keys are the
      names registered there, and a later registration of a name replaces an
      earlier one, as dict assignment does. Sub-groups are mapped by the
      same function, so their keys are their own names at every level. */
  function TyperCommands(commands: seq<(string, CliCommand)>): (r: Listing)
    ensures r.entries.Keys == Names(commands)
    decreases commands, 0
  {
    if commands == [] then Listing(map[])
    else
      var n := |commands| - 1;
      var (name, command) := commands[n];
      var before := TyperCommands(commands[..n]);
      assert command < commands[n];
      NamesAppend(commands[..n], name, command);
      assert commands == commands[..n] + [(name, command)];
      Listing(before.entries[name := Entry(command)])
  }

  /** Registering one more command adds exactly its name. */
  lemma NamesAppend(pre: seq<(string, CliCommand)>, name: string, command: CliCommand)
    ensures Names(pre + [(name, command)]) == Names(pre) + {name}
  {
    var commands := pre + [(name, command)];
    forall x | x in Names(commands) ensures x in Names(pre) + {name} {
      var i :| 0 <= i < |commands| && commands[i].0 == x;
      if i < |pre| { assert pre[i].0 == x; }
    }
    forall x | x in Names(pre) ensures x in Names(commands) {
      var i :| 0 <= i < |pre| && pre[i].0 == x;
      assert commands[i].0 == x;
    }
    assert commands[|pre|].0 == name;
  }

  /** Each name maps to the entry of its last registration: None for a
      command, and for a group the name tree of that group, built
      recursively. */
  lemma {:induction false} TyperCommandsNested(commands: seq<(string, CliCommand)>)
    ensures forall i :: LastOfName(commands, i) ==> TyperCommands(commands).entries[commands[i].0] == Entry(commands[i].1)
  {
    if commands != [] {
      var n := |commands| - 1;
      var pre := commands[..n];
      TyperCommandsNested(pre);
      var before := TyperCommands(pre);
      var entries := before.entries[commands[n].0 := Entry(commands[n].1)];
      assert TyperCommands(commands).entries == entries;
      forall i | LastOfName(commands, i)
        ensures TyperCommands(commands).entries[commands[i].0] == Entry(commands[i].1)
      {
        if i < n {
          assert commands[i] == pre[i];
          assert commands[i].0 != commands[n].0;
          assert LastOfName(pre, i) by {
            forall j | i < j < |pre| ensures pre[j].0 != pre[i].0 {
              assert commands[j] == pre[j];
            }
          }
          assert before.entries[pre[i].0] == Entry(pre[i].1);
        }
      }
    }
  }
}
