/**
 * The key profiles of the configuration page (public/scripts/main.js):
 * `ensureProfiles`, which repairs the stored profile table before every use,
 * and `switchToNextProfile`, bound to the profile key of the keypad.
 *
 * A JavaScript object is modelled as its members in their enumeration
 * order; assigning an existing member keeps its place, a new member goes
 * last, `delete` drops it.
 */
module WebProfiles {
  import opened Common

  // ------------------------------------------------- ordered objects

  function Names<V>(m: seq<(string, V)>): (r: seq<string>)
    ensures |r| == |m| && forall i :: 0 <= i < |m| ==> r[i] == m[i].0
  {
    if |m| == 0 then [] else [m[0].0] + Names(m[1..])
  }

  predicate Unique(names: seq<string>)
  {
    forall i, j :: 0 <= i < j < |names| ==> names[i] != names[j]
  }

  /** `obj[k]`: the member `k`, or nothing. */
  function Get<V>(m: seq<(string, V)>, k: string): (r: Option<V>)
  {
    if |m| == 0 then None else if m[0].0 == k then Some(m[0].1) else Get(m[1..], k)
  }

  lemma {:induction false} GetIn<V>(m: seq<(string, V)>, k: string)
    ensures Get(m, k).Some? <==> k in Names(m)
    decreases |m|
  {
    if |m| > 0 {
      GetIn(m[1..], k);
      assert Names(m) == [m[0].0] + Names(m[1..]);
    }
  }

  /** `obj[k] = v`. */
  function Put<V>(m: seq<(string, V)>, k: string, v: V): (r: seq<(string, V)>)
    ensures Get(r, k) == Some(v) && |r| > 0
  {
    if |m| == 0 then [(k, v)]
    else if m[0].0 == k then [(k, v)] + m[1..]
    else [m[0]] + Put(m[1..], k, v)
  }

  /** Assigning k leaves every other member as it was. */
  lemma {:induction false} PutOther<V>(m: seq<(string, V)>, k: string, v: V, x: string)
    requires x != k
    ensures Get(Put(m, k, v), x) == Get(m, x)
    decreases |m|
  {
    if |m| > 0 && m[0].0 != k {
      PutOther(m[1..], k, v, x);
    }
  }

  /** Assigning an existing member keeps the order of names; a new one goes last. */
  lemma {:induction false} PutNames<V>(m: seq<(string, V)>, k: string, v: V)
    ensures k in Names(m) ==> Names(Put(m, k, v)) == Names(m)
    ensures k !in Names(m) ==> Names(Put(m, k, v)) == Names(m) + [k]
    decreases |m|
  {
    if |m| > 0 {
      PutNames(m[1..], k, v);
      assert Names(m) == [m[0].0] + Names(m[1..]);
      if m[0].0 != k {
        assert Names(Put(m, k, v)) == [m[0].0] + Names(Put(m[1..], k, v));
      } else {
        assert Names(Put(m, k, v)) == [k] + Names(m[1..]);
      }
    }
  }

  /** `delete obj[k]`. */
  function Remove<V>(m: seq<(string, V)>, k: string): (r: seq<(string, V)>)
    ensures Get(r, k).None? && |r| <= |m|
  {
    if |m| == 0 then []
    else if m[0].0 == k then Remove(m[1..], k)
    else [m[0]] + Remove(m[1..], k)
  }

  /** Deleting k leaves every other member as it was. */
  lemma {:induction false} RemoveOther<V>(m: seq<(string, V)>, k: string, x: string)
    requires x != k
    ensures Get(Remove(m, k), x) == Get(m, x)
    decreases |m|
  {
    if |m| > 0 {
      RemoveOther(m[1..], k, x);
    }
  }

  /** `Object.assign(target, source)`: the members of source are assigned one by one, in order. */
  function Assign<V>(target: seq<(string, V)>, source: seq<(string, V)>): seq<(string, V)>
    decreases |source|
  {
    if |source| == 0 then target else Assign(Put(target, source[0].0, source[0].1), source[1..])
  }

  /** After `Object.assign`, a member of source overrides the target's; every other member is the target's. */
  lemma {:induction false} AssignGet<V>(target: seq<(string, V)>, source: seq<(string, V)>, k: string)
    requires Unique(Names(source))
    ensures Get(Assign(target, source), k) == if Get(source, k).Some? then Get(source, k) else Get(target, k)
    decreases |source|
  {
    if |source| > 0 {
      var rest := source[1..];
      assert Names(rest) == Names(source)[1..];
      assert source[0].0 !in Names(rest);
      GetIn(rest, source[0].0);
      if k != source[0].0 {
        PutOther(target, source[0].0, source[0].1, k);
      }
      AssignGet(Put(target, source[0].0, source[0].1), rest, k);
    }
  }

  lemma {:induction false} PutPresent<V>(m: seq<(string, V)>, k: string, v: V)
    requires Get(m, k) == Some(v)
    ensures Put(m, k, v) == m
    decreases |m|
  {
    if |m| > 0 && m[0].0 != k {
      PutPresent(m[1..], k, v);
    }
  }

  lemma {:induction false} RemoveAbsent<V>(m: seq<(string, V)>, k: string)
    requires Get(m, k).None?
    ensures Remove(m, k) == m
    decreases |m|
  {
    if |m| > 0 {
      RemoveAbsent(m[1..], k);
    }
  }

  // ------------------------------------------------- profiles

  /** A profile object; `keys` is nothing when the member is missing or falsy. */
  datatype Profile = Profile(keys: Option<seq<(string, Json)>>)

  /** The profile table; an entry is nothing when its value is falsy (`null`). */
  type Table = seq<(string, Option<Profile>)>

  /** `config.profiles` (nothing: missing, falsy or not an object) and `config.activeProfile` (nothing: unset). */
  datatype Book = Book(profiles: Option<Table>, active: Option<string>)

  const CONFIGURATION := "Configuration"
  const FIRST_PROFILE := "Profil 1"
  const OLD_PROFILE := "Profil 2"
  const PROFILE_KEY := "0-0"

  function EmptyProfile(): Option<Profile>
  {
    Some(Profile(Some([])))
  }

  /** `config.profiles[name]` when it is truthy. */
  function ProfileAt(p: Table, name: string): Option<Profile>
  {
    var e := Get(p, name);
    if e.Some? then e.value else None
  }

  /** The first four repairs: an object, not empty, a truthy `Configuration` profile with a truthy `keys`. */
  function Prepared(profiles: Option<Table>): (p: Table)
    ensures |p| > 0
    ensures ProfileAt(p, CONFIGURATION).Some? && ProfileAt(p, CONFIGURATION).value.keys.Some?
  {
    var p1 := if profiles.None? then [] else profiles.value;
    var p2 := if |p1| == 0 then Put(p1, FIRST_PROFILE, EmptyProfile()) else p1;
    var p3 := if ProfileAt(p2, CONFIGURATION).None? then Put(p2, CONFIGURATION, EmptyProfile()) else p2;
    var c := ProfileAt(p3, CONFIGURATION);
    if c.Some? && c.value.keys.Some? then p3 else Put(p3, CONFIGURATION, EmptyProfile())
  }

  function ConfigurationKeys(p: Table): seq<(string, Json)>
  {
    var c := ProfileAt(p, CONFIGURATION);
    if c.Some? && c.value.keys.Some? then c.value.keys.value else []
  }

  /** `config.profiles['Profil 2'].keys || {}`. */
  function OldKeys(p: Table): seq<(string, Json)>
  {
    var o := ProfileAt(p, OLD_PROFILE);
    if o.Some? && o.value.keys.Some? then o.value.keys.value else []
  }

  /** The merge of a truthy `Profil 2` into `Configuration` and the removal of the profile-switch key `0-0`. */
  function Cleaned(p: Table): Table
  {
    var merged := if ProfileAt(p, OLD_PROFILE).Some? then Assign(ConfigurationKeys(p), OldKeys(p)) else ConfigurationKeys(p);
    var p5 := if ProfileAt(p, OLD_PROFILE).Some? then Remove(p, OLD_PROFILE) else p;
    Put(p5, CONFIGURATION, Some(Profile(Some(Remove(merged, PROFILE_KEY)))))
  }

  /** An active `Profil 2` that was merged becomes `Configuration`. */
  function Renamed(p: Table, active: Option<string>): Option<string>
  {
    if ProfileAt(p, OLD_PROFILE).Some? && active == Some(OLD_PROFILE) then Some(CONFIGURATION) else active
  }

  /** A falsy active name, or one without a truthy profile, becomes `Object.keys(profiles)[0] || 'Profil 1'`. */
  function Chosen(p: Table, active: Option<string>): Option<string>
    requires |p| > 0
  {
    if active.None? || active.value == "" || ProfileAt(p, active.value).None? then
      Some(if p[0].0 == "" then FIRST_PROFILE else p[0].0)
    else active
  }

  /** The book after `ensureProfiles()`. */
  function Ensured(b: Book): (e: Book)
    ensures e.profiles.Some? && |e.profiles.value| > 0
    ensures e.active.Some? && e.active.value != ""
  {
    var p := Prepared(b.profiles);
    var p6 := Cleaned(p);
    Book(Some(p6), Chosen(p6, Renamed(p, b.active)))
  }

  lemma CleanedShape(p: Table)
    ensures var c := Cleaned(p);
      |c| > 0 && ProfileAt(c, OLD_PROFILE).None? &&
      ProfileAt(c, CONFIGURATION).Some? && ProfileAt(c, CONFIGURATION).value.keys.Some? &&
      Get(ProfileAt(c, CONFIGURATION).value.keys.value, PROFILE_KEY).None?
  {
    var merged := if ProfileAt(p, OLD_PROFILE).Some? then Assign(ConfigurationKeys(p), OldKeys(p)) else ConfigurationKeys(p);
    var p5 := if ProfileAt(p, OLD_PROFILE).Some? then Remove(p, OLD_PROFILE) else p;
    PutOther(p5, CONFIGURATION, Some(Profile(Some(Remove(merged, PROFILE_KEY)))), OLD_PROFILE);
  }

  /** The first repairs touch no profile but `Configuration` of a non-empty table. */
  lemma PreparedOther(profiles: Option<Table>, name: string)
    requires profiles.Some? && |profiles.value| > 0 && name != CONFIGURATION
    ensures Get(Prepared(profiles), name) == Get(profiles.value, name)
  {
    var p := profiles.value;
    var p3 := if ProfileAt(p, CONFIGURATION).None? then Put(p, CONFIGURATION, EmptyProfile()) else p;
    PutOther(p, CONFIGURATION, EmptyProfile(), name);
    PutOther(p3, CONFIGURATION, EmptyProfile(), name);
  }

  /** The merge touches no profile but `Configuration` and `Profil 2`. */
  lemma CleanedOther(p: Table, name: string)
    requires name != CONFIGURATION && name != OLD_PROFILE
    ensures Get(Cleaned(p), name) == Get(p, name)
  {
    var merged := if ProfileAt(p, OLD_PROFILE).Some? then Assign(ConfigurationKeys(p), OldKeys(p)) else ConfigurationKeys(p);
    var p5 := if ProfileAt(p, OLD_PROFILE).Some? then Remove(p, OLD_PROFILE) else p;
    RemoveOther(p, OLD_PROFILE, name);
    PutOther(p5, CONFIGURATION, Some(Profile(Some(Remove(merged, PROFILE_KEY)))), name);
  }

  /**
   * After `ensureProfiles()` the table is a non-empty object with a truthy
   * `Configuration` profile whose keys hold no `0-0`, `Profil 2` is gone
   * (or was falsy), and the active name is set: either it names a truthy
   * profile or it is the first name (`Profil 1` when that name is "").
   */
  lemma EnsuredShape(b: Book)
    ensures var d := Ensured(b);
      d.profiles.Some? && |d.profiles.value| > 0 &&
      ProfileAt(d.profiles.value, CONFIGURATION).Some? &&
      ProfileAt(d.profiles.value, CONFIGURATION).value.keys.Some? &&
      Get(ProfileAt(d.profiles.value, CONFIGURATION).value.keys.value, PROFILE_KEY).None? &&
      ProfileAt(d.profiles.value, OLD_PROFILE).None? &&
      d.active.Some? && d.active.value != "" &&
      (ProfileAt(d.profiles.value, d.active.value).Some? ||
       d.active == Some(if d.profiles.value[0].0 == "" then FIRST_PROFILE else d.profiles.value[0].0))
  {
    CleanedShape(Prepared(b.profiles));
  }

  /** Profiles other than `Configuration` and `Profil 2` come through unchanged when the table was a non-empty object. */
  lemma EnsuredKeepsOthers(b: Book, name: string)
    requires b.profiles.Some? && |b.profiles.value| > 0
    requires name != CONFIGURATION && name != OLD_PROFILE
    ensures Get(Ensured(b).profiles.value, name) == Get(b.profiles.value, name)
  {
    PreparedOther(b.profiles, name);
    CleanedOther(Prepared(b.profiles), name);
  }

  /**
   * A truthy `Profil 2` is merged into `Configuration`: its keys override,
   * the other `Configuration` keys stay, and `0-0` is dropped.
   */
  lemma EnsuredMerge(b: Book, k: string)
    requires b.profiles.Some?
    requires ProfileAt(b.profiles.value, CONFIGURATION).Some? && ProfileAt(b.profiles.value, CONFIGURATION).value.keys.Some?
    requires ProfileAt(b.profiles.value, OLD_PROFILE).Some?
    requires Unique(Names(OldKeys(b.profiles.value)))
    requires k != PROFILE_KEY
    ensures var cfg := ProfileAt(Ensured(b).profiles.value, CONFIGURATION).value.keys.value;
      var old2 := OldKeys(b.profiles.value);
      Get(cfg, k) == if Get(old2, k).Some? then Get(old2, k) else Get(ProfileAt(b.profiles.value, CONFIGURATION).value.keys.value, k)
  {
    var p := b.profiles.value;
    assert Prepared(b.profiles) == p;
    var merged := Assign(ConfigurationKeys(p), OldKeys(p));
    RemoveOther(merged, PROFILE_KEY, k);
    AssignGet(ConfigurationKeys(p), OldKeys(p), k);
  }

  /** An active name that is set and names a truthy profile other than `Profil 2` is kept. */
  lemma EnsuredKeepsActive(b: Book)
    requires b.profiles.Some? && b.active.Some? && b.active.value != "" && b.active.value != OLD_PROFILE
    requires ProfileAt(b.profiles.value, b.active.value).Some?
    ensures Ensured(b).active == b.active
  {
    var a := b.active.value;
    CleanedShape(Prepared(b.profiles));
    if a != CONFIGURATION {
      PreparedOther(b.profiles, a);
      CleanedOther(Prepared(b.profiles), a);
    }
  }

  /** An active `Profil 2` that is merged away leaves `Configuration` active. */
  lemma EnsuredRenamesActive(b: Book)
    requires b.profiles.Some? && ProfileAt(b.profiles.value, OLD_PROFILE).Some? && b.active == Some(OLD_PROFILE)
    ensures Ensured(b).active == Some(CONFIGURATION)
  {
    PreparedOther(b.profiles, OLD_PROFILE);
    CleanedShape(Prepared(b.profiles));
  }

  /** A repaired table needs no repair. */
  lemma PreparedClean(p: Table)
    requires |p| > 0 && ProfileAt(p, CONFIGURATION).Some? && ProfileAt(p, CONFIGURATION).value.keys.Some?
    ensures Prepared(Some(p)) == p
  {
  }

  lemma CleanedClean(p: Table)
    requires ProfileAt(p, OLD_PROFILE).None?
    requires ProfileAt(p, CONFIGURATION).Some? && ProfileAt(p, CONFIGURATION).value.keys.Some?
    requires Get(ProfileAt(p, CONFIGURATION).value.keys.value, PROFILE_KEY).None?
    ensures Cleaned(p) == p
  {
    var ks := ConfigurationKeys(p);
    RemoveAbsent(ks, PROFILE_KEY);
    PutPresent(p, CONFIGURATION, Some(Profile(Some(ks))));
  }

  /** `ensureProfiles()` is idempotent: a second call changes nothing. */
  lemma EnsuredIdempotent(b: Book)
    ensures Ensured(Ensured(b)) == Ensured(b)
  {
    var d := Ensured(b);
    EnsuredShape(b);
    var p := d.profiles.value;
    PreparedClean(p);
    CleanedClean(p);
    assert Renamed(p, d.active) == d.active;
  }

  // ------------------------------------------------- switchToNextProfile

  /** `names.indexOf(x)`: the first position of x, or -1. */
  function IndexOf(names: seq<string>, x: Option<string>): (i: int)
    ensures -1 <= i < |names|
    ensures i >= 0 ==> x == Some(names[i]) && forall j :: 0 <= j < i ==> Some(names[j]) != x
    ensures i == -1 ==> forall j :: 0 <= j < |names| ==> Some(names[j]) != x
  {
    if |names| == 0 then -1
    else if x == Some(names[0]) then 0
    else var r := IndexOf(names[1..], x); if r == -1 then -1 else r + 1
  }

  /** The active name after one press of the profile key, before `switchProfile()` repairs the table again. */
  function Advanced(b: Book): Book
  {
    var names := if b.profiles.Some? then Names(b.profiles.value) else [];
    if |names| == 0 then b
    else b.(active := Some(names[(IndexOf(names, b.active) + 1) % |names|]))
  }

  /** `switchToNextProfile()`: repair, step to the next name, and `switchProfile()`'s own repair. */
  function SwitchedNext(b: Book): Book
  {
    Ensured(Advanced(Ensured(b)))
  }

  /**
   * A repaired book whose profiles are all truthy and named, with distinct
   * names: `Configuration` has keys without `0-0`, no `Profil 2`, and one of
   * the names is active.
   */
  predicate Settled(b: Book)
  {
    b.profiles.Some? && |b.profiles.value| > 0 && Unique(Names(b.profiles.value)) &&
    (forall i :: 0 <= i < |b.profiles.value| ==> b.profiles.value[i].0 != "" && b.profiles.value[i].1.Some?) &&
    ProfileAt(b.profiles.value, CONFIGURATION).Some? &&
    ProfileAt(b.profiles.value, CONFIGURATION).value.keys.Some? &&
    Get(ProfileAt(b.profiles.value, CONFIGURATION).value.keys.value, PROFILE_KEY).None? &&
    ProfileAt(b.profiles.value, OLD_PROFILE).None? &&
    b.active.Some? && b.active.value in Names(b.profiles.value)
  }

  lemma {:induction false} GetAt(p: Table, i: nat)
    requires Unique(Names(p)) && i < |p|
    ensures Get(p, p[i].0) == Some(p[i].1)
    decreases i
  {
    if i > 0 {
      assert Names(p[1..]) == Names(p)[1..];
      GetAt(p[1..], i - 1);
    }
  }

  /** `ensureProfiles()` leaves a settled book alone. */
  lemma SettledFixed(b: Book)
    requires Settled(b)
    ensures Ensured(b) == b
  {
    var p := b.profiles.value;
    var a := b.active.value;
    var j :| 0 <= j < |p| && Names(p)[j] == a;
    GetAt(p, j);
    PreparedClean(p);
    CleanedClean(p);
  }

  /**
   * On a settled book the profile key makes the next profile in table order
   * active, wrapping round from the last to the first, and changes nothing
   * else; the book stays settled.
   */
  lemma SwitchSteps(b: Book)
    requires Settled(b)
    ensures var names := Names(b.profiles.value);
      var i := IndexOf(names, b.active);
      var j := if i + 1 < |names| then i + 1 else 0;
      0 <= i && SwitchedNext(b) == b.(active := Some(names[j])) &&
      Settled(SwitchedNext(b)) && IndexOf(names, SwitchedNext(b).active) == j
  {
    var p := b.profiles.value;
    var names := Names(p);
    ActiveIndex(b);
    var i := IndexOf(names, b.active);
    NextIndex(i, |names|);
    var j := if i + 1 < |names| then i + 1 else 0;
    var c := b.(active := Some(names[j]));
    AdvancedTo(b, j);
    SettledMoved(b, j);
    SettledFixed(b);
    SettledFixed(c);
    assert SwitchedNext(b) == c;
    IndexOfUnique(names, j);
  }

  lemma AdvancedTo(b: Book, j: nat)
    requires b.profiles.Some? && |Names(b.profiles.value)| > 0
    requires j == (IndexOf(Names(b.profiles.value), b.active) + 1) % |Names(b.profiles.value)|
    ensures Advanced(b) == b.(active := Some(Names(b.profiles.value)[j]))
  {
  }

  lemma SettledMoved(b: Book, j: nat)
    requires Settled(b) && j < |Names(b.profiles.value)|
    ensures Settled(b.(active := Some(Names(b.profiles.value)[j])))
  {
  }

  lemma {:induction false} IndexOfUnique(names: seq<string>, j: nat)
    requires Unique(names) && j < |names|
    ensures IndexOf(names, Some(names[j])) == j
  {
  }

  lemma ModBelow(x: int, n: int)
    requires 0 <= x < n
    ensures x % n == x
  {
    assert x == (x / n) * n + x % n;
  }

  lemma ModSelf(n: int)
    requires n > 0
    ensures n % n == 0
  {
    assert n == 1 * n + 0;
  }

  /** `(i + 1) % n` for an index or -1: the next index, wrapping to 0. */
  lemma NextIndex(i: int, n: int)
    requires -1 <= i < n && n > 0
    ensures (i + 1) % n == if i + 1 < n then i + 1 else 0
  {
    if i + 1 < n {
      ModBelow(i + 1, n);
    } else {
      ModSelf(n);
    }
  }

  lemma ActiveIndex(b: Book)
    requires Settled(b)
    ensures IndexOf(Names(b.profiles.value), b.active) >= 0
  {
    var names := Names(b.profiles.value);
    var j :| 0 <= j < |names| && names[j] == b.active.value;
  }

  // ------------------------------------------------- the page's state

  /** `config.profiles` and `config.activeProfile`, updated in place by the page. */
  class ProfileBook {
    var profiles: Option<Table>
    var activeProfile: Option<string>

    function State(): Book
      reads this
    {
      Book(profiles, activeProfile)
    }

    constructor(profiles: Option<Table>, activeProfile: Option<string>)
      ensures State() == Book(profiles, activeProfile)
    {
      this.profiles := profiles;
      this.activeProfile := activeProfile;
    }

    /** `ensureProfiles()`, one repair after the other. */
    method EnsureProfiles()
      modifies this
      ensures State() == Ensured(old(State()))
    {
      ghost var start := State();
      if profiles.None? {
        profiles := Some([]);
      }
      var p := profiles.value;
      if |p| == 0 {
        p := Put(p, FIRST_PROFILE, EmptyProfile());
      }
      if ProfileAt(p, CONFIGURATION).None? {
        p := Put(p, CONFIGURATION, EmptyProfile());
      }
      var c := ProfileAt(p, CONFIGURATION);
      if !(c.Some? && c.value.keys.Some?) {
        p := Put(p, CONFIGURATION, EmptyProfile());
      }
      assert p == Prepared(start.profiles);
      var cfgKeys := ConfigurationKeys(p);
      var renamed := activeProfile;
      if ProfileAt(p, OLD_PROFILE).Some? {
        cfgKeys := Assign(cfgKeys, OldKeys(p));
        p := Remove(p, OLD_PROFILE);
        if activeProfile == Some(OLD_PROFILE) {
          activeProfile := Some(CONFIGURATION);
        }
      }
      assert activeProfile == Renamed(Prepared(start.profiles), start.active);
      cfgKeys := Remove(cfgKeys, PROFILE_KEY);
      p := Put(p, CONFIGURATION, Some(Profile(Some(cfgKeys))));
      profiles := Some(p);
      if activeProfile.None? || activeProfile.value == "" || ProfileAt(p, activeProfile.value).None? {
        activeProfile := Some(if p[0].0 == "" then FIRST_PROFILE else p[0].0);
      }
    }

    /** `switchToNextProfile()`; of `switchProfile()` only its leading repair is modelled. */
    method SwitchToNextProfile()
      modifies this
      ensures State() == SwitchedNext(old(State()))
    {
      EnsureProfiles();
      var names := if profiles.Some? then Names(profiles.value) else [];
      if |names| > 0 {
        var i := IndexOf(names, activeProfile);
        activeProfile := Some(names[(i + 1) % |names|]);
      }
      EnsureProfiles();
    }
  }
}
