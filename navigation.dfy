/**
 Model of the navigation target lock (components/NavigationConsole.tsx): five
 star systems with unique ids, a selection made by clicking a star, and a lock
 that copies the selection. Layout coordinates are kept as data; the radar
 sweep, the trajectory line and the histogram are not modelled.
 */
module Navigation {
  import opened Options

  datatype StarSystem = StarSystem(id: int, x: int, y: int, name: string, grav: string, dist: string, status: string)

  /** The map's five systems, numbered 1 to 5 in order. */
  function Systems(): (ss: seq<StarSystem>)
    ensures |ss| == 5 && UniqueIds(ss)
    ensures forall i :: 0 <= i < |ss| ==> ss[i].id == i + 1
  {
    [
      StarSystem(1, 25, 35, "Miller's System", "1.30g", "14.2 AU", "Time Dilation Critical"),
      StarSystem(2, 50, 50, "Gargantua Singularity", "Infinite", "0.0 AU", "Event Horizon"),
      StarSystem(3, 75, 25, "Mann's System", "0.80g", "22.4 AU", "Atmosphere Frozen"),
      StarSystem(4, 35, 75, "Edmunds' System", "0.98g", "35.1 AU", "Habitable"),
      StarSystem(5, 80, 70, "Wolf-1061", "1.10g", "41.8 AU", "Scanning...")
    ]
  }

  /** No two systems share an id. */
  predicate UniqueIds(ss: seq<StarSystem>)
  {
    forall i, j :: 0 <= i < j < |ss| ==> ss[i].id != ss[j].id
  }

  /** An id that names one of the systems. */
  predicate IsSystemId(id: int)
  {
    exists i :: 0 <= i < |Systems()| && Systems()[i].id == id
  }

  /** The system table has unique ids, and they are exactly 1 to 5. */
  lemma SystemsTable()
    ensures UniqueIds(Systems())
    ensures forall id :: IsSystemId(id) <==> 1 <= id <= 5
  {
    forall id | 1 <= id <= 5 ensures IsSystemId(id) {
      assert Systems()[id - 1].id == id;
    }
  }

  /**
   `systems.find(s => s.id === selected)`: the first system whose id is the
   selection; absent when nothing is selected or no id matches.
   */
  function Find(ss: seq<StarSystem>, sel: Option<int>): (r: Option<StarSystem>)
    ensures r.Some? ==> sel == Some(r.value.id) && r.value in ss
    ensures r.None? ==> sel.None? || forall i :: 0 <= i < |ss| ==> ss[i].id != sel.value
    ensures r.Some? ==> exists i :: 0 <= i < |ss| && ss[i] == r.value && forall j :: 0 <= j < i ==> ss[j].id != sel.value
  {
    if ss == [] || sel.None? then None
    else if ss[0].id == sel.value then Some(ss[0])
    else
      var r := Find(ss[1..], sel);
      assert r.Some? ==> exists i :: 1 <= i < |ss| && ss[i] == r.value && forall j :: 0 <= j < i ==> ss[j].id != sel.value by {
        if r.Some? {
          var i :| 0 <= i < |ss[1..]| && ss[1..][i] == r.value && forall j :: 0 <= j < i ==> ss[1..][j].id != sel.value;
          assert ss[i + 1] == r.value;
          forall j | 0 <= j < i + 1 ensures ss[j].id != sel.value {
            if j > 0 { assert ss[j] == ss[1..][j - 1]; }
          }
        }
      }
      r
  }

  /** With unique ids, looking up the id of a system yields that very system. */
  lemma FindUnique(ss: seq<StarSystem>, k: nat)
    requires UniqueIds(ss) && k < |ss|
    ensures Find(ss, Some(ss[k].id)) == Some(ss[k])
  {
  }

  /** JavaScript truthiness of a `number | null`: neither null nor 0. */
  predicate Truthy(o: Option<int>)
  {
    o.Some? && o.value != 0
  }

  /** `selected` and `locked`. */
  datatype Nav = Nav(selected: Option<int>, locked: Option<int>)

  /** Both fields are null or a system id. */
  predicate Consistent(n: Nav)
  {
    (n.selected.Some? ==> IsSystemId(n.selected.value)) && (n.locked.Some? ==> IsSystemId(n.locked.value))
  }

  /** The mounted component: nothing selected, nothing locked. */
  function Initial(): (n: Nav)
    ensures Consistent(n) && n.selected.None? && n.locked.None?
  {
    Nav(None, None)
  }

  /** A star's `onClick`. */
  function Select(n: Nav, id: int): (r: Nav)
    requires IsSystemId(id)
    ensures Consistent(n) ==> Consistent(r)
  {
    n.(selected := Some(id))
  }

  /** `handleLockTarget`. */
  function Lock(n: Nav): (r: Nav)
    ensures Consistent(n) ==> Consistent(r)
    ensures r.selected == n.selected
  {
    if Truthy(n.selected) then n.(locked := n.selected) else n
  }

  /**
   `locked === selected && selected`: the button reads "Target Locked"; in a
   consistent state exactly when a selection is made and is the lock, and
   pressing the button then changes nothing.
   */
  predicate ShowsTargetLocked(n: Nav)
    ensures Consistent(n) ==> (ShowsTargetLocked(n) <==> n.selected.Some? && n.locked == n.selected)
    ensures ShowsTargetLocked(n) ==> Lock(n) == n
  {
    n.locked == n.selected && Truthy(n.selected)
  }

  /**
   `disabled={!selected}`: in a consistent state, disabled exactly when
   nothing is selected; a disabled press would change nothing.
   */
  predicate LockDisabled(n: Nav)
    ensures Consistent(n) ==> (LockDisabled(n) <==> n.selected.None?)
    ensures LockDisabled(n) ==> Lock(n) == n
  {
    !Truthy(n.selected)
  }

  /**
   The system shown in the data readout (`activeSys`): a system of the map
   whose star is drawn active, present in a consistent state exactly when a
   selection is made.
   */
  function ActiveSystem(n: Nav): (r: Option<StarSystem>)
    ensures r.Some? ==> r.value in Systems() && IsActive(n, r.value)
    ensures Consistent(n) ==> (r.Some? <==> n.selected.Some?)
  {
    Find(Systems(), n.selected)
  }

  /** Whether a star is drawn as active (`selected === sys.id`); a star of the map drawn active enables the lock button. */
  predicate IsActive(n: Nav, s: StarSystem)
    ensures IsActive(n, s) && s in Systems() ==> !LockDisabled(n)
  {
    n.selected == Some(s.id)
  }

  /** Since no system has id 0, truthiness of a field of a consistent state is "not null". */
  lemma TruthyIsPresent(n: Nav)
    requires Consistent(n)
    ensures Truthy(n.selected) <==> n.selected.Some?
    ensures Truthy(n.locked) <==> n.locked.Some?
  {
    SystemsTable();
  }

  /** Selecting sets the selection and keeps the lock. */
  lemma SelectEffect(n: Nav, id: int)
    requires IsSystemId(id)
    ensures Select(n, id).selected == Some(id) && Select(n, id).locked == n.locked
    ensures ActiveSystem(Select(n, id)).Some? && ActiveSystem(Select(n, id)).value.id == id
  {
    var k :| 0 <= k < |Systems()| && Systems()[k].id == id;
    SystemsTable();
    FindUnique(Systems(), k);
  }

  /** Lock copies a selection and is a no-op without one; locking twice is locking once. */
  lemma LockEffect(n: Nav)
    requires Consistent(n)
    ensures n.selected.None? ==> Lock(n) == n
    ensures n.selected.Some? ==> Lock(n) == Nav(n.selected, n.selected)
    ensures Lock(Lock(n)) == Lock(n)
  {
    TruthyIsPresent(n);
  }

  /** The lock button: "Target Locked" exactly for a selection that is the lock; disabled exactly without a selection. */
  lemma ButtonStates(n: Nav)
    requires Consistent(n)
    ensures ShowsTargetLocked(n) <==> n.selected.Some? && n.locked == n.selected
    ensures LockDisabled(n) <==> n.selected.None?
    ensures n.selected.Some? ==> ShowsTargetLocked(Lock(n))
    ensures ActiveSystem(n).None? <==> n.selected.None?
  {
    TruthyIsPresent(n);
    if n.selected.Some? {
      SelectEffect(n, n.selected.value);
      assert Select(n, n.selected.value) == n;
    }
  }

  /** Lock X, select Y other than X: "Lock Trajectory"; select X again: "Target Locked", the lock persisted. */
  lemma LockPersistsAcrossSelection(n: Nav, x: int, y: int)
    requires Consistent(n) && IsSystemId(x) && IsSystemId(y) && x != y
    ensures !ShowsTargetLocked(Select(Lock(Select(n, x)), y))
    ensures ShowsTargetLocked(Select(Select(Lock(Select(n, x)), y), x))
  {
    var a := Lock(Select(n, x));
    LockEffect(Select(n, x));
    assert a.locked == Some(x);
    TruthyIsPresent(Select(Select(a, y), x));
  }

  /** With unique ids at most one star is drawn active, and it is the active system. */
  lemma AtMostOneActive(n: Nav, i: nat, j: nat)
    requires i < |Systems()| && j < |Systems()|
    requires IsActive(n, Systems()[i]) && IsActive(n, Systems()[j])
    ensures i == j && ActiveSystem(n) == Some(Systems()[i])
  {
    SystemsTable();
    FindUnique(Systems(), i);
  }

  // ---------------------------------------------------------------------------
  // The component
  // ---------------------------------------------------------------------------

  class NavigationConsole {
    var selected: Option<int>
    var locked: Option<int>

    function State(): Nav
      reads this
    {
      Nav(selected, locked)
    }

    ghost predicate Valid()
      reads this
    {
      Consistent(State())
    }

    constructor ()
      ensures Valid() && State() == Initial()
      ensures selected == None && locked == None
    {
      selected, locked := None, None;
    }

    /** Clicking the star with the given id. */
    method SelectSystem(id: int)
      requires Valid() && IsSystemId(id)
      modifies this
      ensures Valid() && State() == Select(old(State()), id)
      ensures selected == Some(id) && locked == old(locked)
    {
      selected := Some(id);
    }

    /** `handleLockTarget`. */
    method LockTarget()
      requires Valid()
      modifies this
      ensures Valid() && State() == Lock(old(State()))
      ensures old(selected).Some? ==> locked == old(selected)
      ensures old(selected).None? ==> locked == old(locked)
      ensures selected == old(selected)
    {
      if selected.Some? && selected.value != 0 {
        locked := selected;
      }
      TruthyIsPresent(old(State()));
    }

    /** Whether the lock button reads "Target Locked". */
    function TargetLockedShown(): (shown: bool)
      reads this
      requires Valid()
      ensures shown <==> selected.Some? && locked == selected
    {
      TruthyIsPresent(State());
      ShowsTargetLocked(State())
    }
  }
}
