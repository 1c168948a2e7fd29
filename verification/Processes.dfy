/**
 * The process filter: the processes whose command contains one of the
 * filter words, together with all their descendants. The operating
 * system's process table is an input snapshot: the listed processes in
 * their listing order, each one's command (possibly unknown) and each
 * one's direct children.
 */
module Processes {
  import opened Wrappers
  import opened Collections

  /** A snapshot of the process table. */
  datatype ProcessTable = ProcessTable(
    pids: seq<int>,
    commands: map<int, Option<string>>,
    children: map<int, seq<int>>)
  {
    /** The direct children of `pid`; none when the snapshot lists none. */
    function ChildrenOf(pid: int): seq<int>
    {
      if pid in children then children[pid] else []
    }

    /** The command of `pid`, or "" when it is unknown. */
    function CommandOf(pid: int): string
    {
      if pid in commands && commands[pid].Some? then commands[pid].value else ""
    }

    /** Every process that is some process's child; the recursion never leaves it. */
    function Kids(): set<int>
    {
      set p, c | p in children && c in children[p] :: c
    }
  }

  /** `prefix` starts `s`. */
  predicate IsPrefix(prefix: string, s: string)
  {
    |prefix| <= |s| && s[..|prefix|] == prefix
  }

  /** String.contains: `word` occurs in `s` at some position (the empty word everywhere). */
  predicate Contains(s: string, word: string): (r: bool)
    ensures word == [] ==> r
    ensures r ==> |word| <= |s|
    decreases |s|
  {
    IsPrefix(word, s) || (s != [] && Contains(s[1..], word))
  }

  /** A word that is the slice of `s` starting at some position occurs in `s`. */
  lemma {:induction false} ContainsAt(s: string, word: string, k: nat)
    requires k + |word| <= |s| && s[k..k + |word|] == word
    ensures Contains(s, word)
    decreases k
  {
    if k > 0 {
      assert s[1..][k - 1..k - 1 + |word|] == s[k..k + |word|];
      ContainsAt(s[1..], word, k - 1);
    }
  }

  /** A word occurs in `s` only as the slice of `s` starting at some position. */
  lemma {:induction false} ContainsOnlyAt(s: string, word: string) returns (k: nat)
    requires Contains(s, word)
    ensures k + |word| <= |s| && s[k..k + |word|] == word
    decreases |s|
  {
    if IsPrefix(word, s) {
      k := 0;
    } else {
      var j := ContainsOnlyAt(s[1..], word);
      k := j + 1;
      assert s[k..k + |word|] == s[1..][j..j + |word|];
    }
  }

  /** Any word is found in a command it equals, and the empty word in every command. */
  lemma ContainsExamples(s: string)
    ensures Contains(s, s) && Contains(s, "")
  {
  }

  /** Some filter word occurs in the command. */
  predicate AnyMatch(words: seq<string>, command: string)
  {
    exists i | 0 <= i < |words| :: Contains(command, words[i])
  }

  /** The listed processes whose command (read as "" when unknown) contains a filter word, in listing order. */
  function Matching(t: ProcessTable, words: seq<string>): (r: seq<int>)
    ensures forall p :: p in r <==> p in t.pids && AnyMatch(words, t.CommandOf(p))
  {
    Select(t, words, t.pids)
  }

  function Select(t: ProcessTable, words: seq<string>, pids: seq<int>): (r: seq<int>)
    ensures forall p :: p in r <==> p in pids && AnyMatch(words, t.CommandOf(p))
  {
    if pids == [] then []
    else (if AnyMatch(words, t.CommandOf(pids[0])) then [pids[0]] else []) + Select(t, words, pids[1..])
  }

  /** Every child of a member is a member. */
  ghost predicate Closed(t: ProcessTable, s: set<int>)
  {
    forall p, c | p in s && c in t.ChildrenOf(p) :: c in s
  }

  /** Every member outside `open` has all its children in the set. */
  ghost predicate ClosedExcept(t: ProcessTable, s: set<int>, open: set<int>)
  {
    forall p, c | p in s && p !in open && c in t.ChildrenOf(p) :: c in s
  }

  /**
   * What a walk from `parent` may add on top of `before`: nothing outside
   * a set that holds the parent's children and is closed under children.
   */
  ghost predicate Beneath(t: ProcessTable, parent: int, before: set<int>, after: set<int>)
  {
    forall s | Closed(t, s) && Members(t.ChildrenOf(parent)) <= s :: after <= before + s
  }

  /**
   * getAllChildProcesses: add each child of `parent` that is not yet in
   * `children`, and walk from each child so added. `open` are the
   * processes whose walk is under way further up the recursion.
   * Afterwards every child of `parent` is present, every present process
   * outside `open` has its children present, and only descendants of
   * `parent` were added.
   */
  method GetAllChildProcesses(t: ProcessTable, parent: int, children0: set<int>, ghost open: set<int>)
    returns (children: set<int>)
    requires children0 <= t.Kids()
    requires ClosedExcept(t, children0, open)
    ensures children0 <= children <= t.Kids()
    ensures Members(t.ChildrenOf(parent)) <= children
    ensures ClosedExcept(t, children, open)
    ensures Beneath(t, parent, children0, children)
    decreases |t.Kids() - children0|
  {
    children := children0;
    var kids := t.ChildrenOf(parent);
    for i := 0 to |kids|
      invariant Walking(t, parent, i, children0, children, open)
    {
      var p := kids[i];
      KidOf(t, parent, p);
      if p !in children {
        ghost var before := children;
        Shrinks(t.Kids(), children0, before, p);
        OpenChild(t, parent, i, children0, before, open);
        var after := GetAllChildProcesses(t, p, children + {p}, open + {p});
        WalkStep(t, parent, i, children0, before, after, open);
        children := after;
      } else {
        KnownStep(t, parent, i, children0, children, open);
      }
    }
    assert kids[..|kids|] == kids;
  }

  /** The invariant of the walk from `parent` after its first `i` children. */
  ghost predicate Walking(t: ProcessTable, parent: int, i: int, children0: set<int>, children: set<int>, open: set<int>)
  {
    && 0 <= i <= |t.ChildrenOf(parent)|
    && children0 <= children <= t.Kids()
    && Members(t.ChildrenOf(parent)[..i]) <= children
    && ClosedExcept(t, children, open)
    && Beneath(t, parent, children0, children)
  }

  /** Adding a new child, whose walk is about to start, keeps the set closed outside the open walks. */
  lemma OpenChild(t: ProcessTable, parent: int, i: int, children0: set<int>, children: set<int>, open: set<int>)
    requires Walking(t, parent, i, children0, children, open) && i < |t.ChildrenOf(parent)|
    ensures ClosedExcept(t, children + {t.ChildrenOf(parent)[i]}, open + {t.ChildrenOf(parent)[i]})
    ensures children + {t.ChildrenOf(parent)[i]} <= t.Kids()
  {
    KidOf(t, parent, t.ChildrenOf(parent)[i]);
  }

  /** A child already present: the walk goes on unchanged. */
  lemma KnownStep(t: ProcessTable, parent: int, i: int, children0: set<int>, children: set<int>, open: set<int>)
    requires Walking(t, parent, i, children0, children, open) && i < |t.ChildrenOf(parent)|
    requires t.ChildrenOf(parent)[i] in children
    ensures Walking(t, parent, i + 1, children0, children, open)
  {
    PrefixMembers(t.ChildrenOf(parent), i);
  }

  /** A new child, walked from: the walk goes on with what that walk found. */
  lemma WalkStep(t: ProcessTable, parent: int, i: int, children0: set<int>, before: set<int>, after: set<int>, open: set<int>)
    requires Walking(t, parent, i, children0, before, open) && i < |t.ChildrenOf(parent)|
    requires before + {t.ChildrenOf(parent)[i]} <= after <= t.Kids()
    requires ClosedExcept(t, after, open + {t.ChildrenOf(parent)[i]})
    requires Members(t.ChildrenOf(t.ChildrenOf(parent)[i])) <= after
    requires Beneath(t, t.ChildrenOf(parent)[i], before + {t.ChildrenOf(parent)[i]}, after)
    ensures Walking(t, parent, i + 1, children0, after, open)
  {
    var p := t.ChildrenOf(parent)[i];
    PrefixMembers(t.ChildrenOf(parent), i);
    WalkedBeneath(t, parent, p, children0, before, after);
  }

  /** A child of any process lies in Kids(). */
  lemma KidOf(t: ProcessTable, parent: int, p: int)
    requires p in t.ChildrenOf(parent)
    ensures p in t.Kids()
  {
  }

  /** Adding a new kid to a set of kids shrinks what is left of Kids(). */
  lemma Shrinks(kids: set<int>, children0: set<int>, before: set<int>, p: int)
    requires children0 <= before <= kids && p in kids && p !in before
    ensures |kids - (before + {p})| < |kids - children0|
  {
    var small, large := kids - (before + {p}), kids - children0;
    assert small <= large;
    assert large == small + (large - small);
    assert p in large - small;
  }

  /** A closed set holds the children of each of its members. */
  lemma ChildrenInClosed(t: ProcessTable, s: set<int>, p: int)
    requires Closed(t, s) && p in s
    ensures Members(t.ChildrenOf(p)) <= s
  {
    forall c | c in Members(t.ChildrenOf(p)) ensures c in s {
      assert c in t.ChildrenOf(p);
    }
  }

  /** A walk from a child of `parent` stays beneath `parent`. */
  lemma WalkedBeneath(t: ProcessTable, parent: int, p: int, children0: set<int>, before: set<int>, after: set<int>)
    requires p in t.ChildrenOf(parent)
    requires Beneath(t, parent, children0, before)
    requires Beneath(t, p, before + {p}, after)
    ensures Beneath(t, parent, children0, after)
  {
    forall s | Closed(t, s) && Members(t.ChildrenOf(parent)) <= s
      ensures after <= children0 + s
    {
      assert p in s;
      ChildrenInClosed(t, s, p);
    }
  }

  /**
   * The walks update starts from each matched process not yet reached:
   * the result is the smallest set holding the children of every root and
   * closed under children.
   */
  method Descendants(t: ProcessTable, roots: seq<int>) returns (children: set<int>)
    ensures Closed(t, children)
    ensures forall r | r in roots :: Members(t.ChildrenOf(r)) <= children
    ensures forall s | Closed(t, s) && (forall r | r in roots :: Members(t.ChildrenOf(r)) <= s) :: children <= s
  {
    children := {};
    for i := 0 to |roots|
      invariant children <= t.Kids()
      invariant Closed(t, children)
      invariant forall r | r in roots[..i] :: Members(t.ChildrenOf(r)) <= children
      invariant forall s | Closed(t, s) && (forall r | r in roots[..i] :: Members(t.ChildrenOf(r)) <= s) :: children <= s
    {
      var process := roots[i];
      if process !in children {
        ghost var before := children;
        children := GetAllChildProcesses(t, process, children, {process});
        RootWalked(t, roots[..i], process, before, children);
      } else {
        ChildrenInClosed(t, children, process);
      }
      assert roots[..i + 1] == roots[..i] + [process];
    }
    assert roots[..|roots|] == roots;
  }

  /** After a walk from a new root the set is closed again and still least. */
  lemma RootWalked(t: ProcessTable, done: seq<int>, process: int, before: set<int>, after: set<int>)
    requires Closed(t, before)
    requires forall s | Closed(t, s) && (forall r | r in done :: Members(t.ChildrenOf(r)) <= s) :: before <= s
    requires before <= after && Members(t.ChildrenOf(process)) <= after
    requires ClosedExcept(t, after, {process})
    requires Beneath(t, process, before, after)
    ensures Closed(t, after)
    ensures forall s | Closed(t, s) && (forall r | r in done + [process] :: Members(t.ChildrenOf(r)) <= s) :: after <= s
  {
    forall s | Closed(t, s) && (forall r | r in done + [process] :: Members(t.ChildrenOf(r)) <= s)
      ensures after <= s
    {
      assert forall r | r in done :: r in done + [process];
      assert before <= s;
      assert Members(t.ChildrenOf(process)) <= s;
    }
  }

  /** The smallest set holding `matched` and closed under children. */
  ghost predicate LeastClosedAbove(t: ProcessTable, matched: set<int>, r: set<int>)
  {
    && matched <= r
    && Closed(t, r)
    && forall s | Closed(t, s) && matched <= s :: r <= s
  }

  /** The filter: the filter words it was built with and the pids found by the last update. */
  class ProcessSet {
    const filterWords: seq<string>
    var filteredIds: set<int>
    /** The process table the last update read; an empty one before the first update. */
    ghost var lastTable: ProcessTable

    /** The pids are what an update computes from `lastTable`. */
    ghost predicate Valid()
      reads this
    {
      if filterWords == [] then filteredIds == Members(lastTable.pids)
      else LeastClosedAbove(lastTable, Members(Matching(lastTable, filterWords)), filteredIds)
    }

    constructor (filterWords: seq<string>)
      ensures this.filterWords == filterWords && filteredIds == {}
      ensures Valid()
    {
      this.filterWords := filterWords;
      filteredIds := {};
      lastTable := ProcessTable([], map[], map[]);
    }

    /**
     * update: with no filter words, every listed process; otherwise the
     * matching processes and all their descendants, and nothing else. The
     * previous contents play no part.
     */
    method Update(t: ProcessTable)
      modifies this
      ensures lastTable == t && Valid()
      ensures filterWords == [] ==> filteredIds == Members(t.pids)
      ensures filterWords != [] ==> LeastClosedAbove(t, Members(Matching(t, filterWords)), filteredIds)
    {
      lastTable := t;
      if filterWords == [] {
        filteredIds := Members(t.pids);
        return;
      }
      var startProcesses := Matching(t, filterWords);
      var children := Descendants(t, startProcesses);
      filteredIds := Members(startProcesses) + children;
      MatchedAndDescendants(t, startProcesses, children);
    }

    /**
     * contains: after an update, without filter words a pid is accepted
     * exactly when the table lists it; with words, exactly when it lies in
     * every set that holds the matching processes and is closed under
     * children, that is, when it is a match or a descendant of one.
     */
    predicate Contains(pid: int): (r: bool)
      reads this
      ensures Valid() && filterWords == [] ==> (r <==> pid in lastTable.pids)
      ensures Valid() && filterWords != [] ==>
        (r <==> forall s | Closed(lastTable, s) && Members(Matching(lastTable, filterWords)) <= s :: pid in s)
    {
      pid in filteredIds
    }
  }

  /**
   * The roots together with the least closed set over their children are
   * the least closed set over the roots.
   */
  lemma MatchedAndDescendants(t: ProcessTable, roots: seq<int>, children: set<int>)
    requires Closed(t, children)
    requires forall r | r in roots :: Members(t.ChildrenOf(r)) <= children
    requires forall s | Closed(t, s) && (forall r | r in roots :: Members(t.ChildrenOf(r)) <= s) :: children <= s
    ensures LeastClosedAbove(t, Members(roots), Members(roots) + children)
  {
    var r := Members(roots) + children;
    forall s | Closed(t, s) && Members(roots) <= s
      ensures r <= s
    {
      forall x | x in roots ensures Members(t.ChildrenOf(x)) <= s {
        assert x in Members(roots);
        ChildrenInClosed(t, s, x);
      }
    }
  }
}
