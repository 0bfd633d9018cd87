/** The profile manager: whether profiles are in use, the list of profile
    names and the active one. The configuration store is an input (the
    values it holds are passed in) and everything the manager writes to it
    or signals to other parts of the program is recorded as an event. */
module Profiles {
  import opened Common

  datatype ProfileEvent =
    | ActiveProfileSaved(name: string)
    | ProfilesListSaved(names: seq<string>)
    | SettingsChanged
      /** The bookmark, custom-options and homes handlers are told to move
          their entries from one profile to another. */
    | ProfileMigrated(from: string, to: string)
      /** The same handlers are told to drop a profile's entries. */
    | ProfileRemoved(name: string)

  datatype ProfileState = ProfileState(useProfiles: bool, profiles: seq<string>, activeProfile: string,
                                       forceSilence: bool, events: seq<ProfileEvent>)

  /** QStringList::first(), which the code calls without checking that the
      list is non-empty; the model answers "" for the empty list. */
  function First(ps: seq<string>): string {
    if ps == [] then "" else ps[0]
  }

  /** setActiveProfile: the new state and whether anything changed. */
  function SetActive(m: ProfileState, name: string): (ProfileState, bool) {
    var changed := if m.useProfiles then name != m.activeProfile else m.activeProfile != "";
    if !changed then (m, false)
    else
      var active := if m.useProfiles then name else "";
      (m.(activeProfile := active,
          events := m.events + [ActiveProfileSaved(active)] + (if m.forceSilence then [] else [SettingsChanged])),
       true)
  }

  /** With profiles in use, the call reports a change exactly when the name
      differs from the active one, which it then becomes; without them it
      clears the active name and reports a change exactly when that name was
      not empty. */
  lemma SetActiveContract(m: ProfileState, name: string)
    ensures m.useProfiles ==> SetActive(m, name).0.activeProfile == name
    ensures m.useProfiles ==> (SetActive(m, name).1 <==> name != m.activeProfile)
    ensures !m.useProfiles ==> SetActive(m, name).0.activeProfile == ""
    ensures !m.useProfiles ==> (SetActive(m, name).1 <==> m.activeProfile != "")
    ensures SetActive(m, name).0.(activeProfile := m.activeProfile, events := m.events) == m
  {
  }

  /** A change is saved to the settings and announced unless the manager is
      silenced; no change leaves everything as it was. */
  lemma SetActiveSignals(m: ProfileState, name: string)
    ensures !SetActive(m, name).1 ==> SetActive(m, name).0 == m
    ensures SetActive(m, name).1 ==>
              SetActive(m, name).0.events[..|m.events|] == m.events &&
              SetActive(m, name).0.events[|m.events|] == ActiveProfileSaved(SetActive(m, name).0.activeProfile)
    ensures SetActive(m, name).1 ==>
              (SettingsChanged in SetActive(m, name).0.events[|m.events|..] <==> !m.forceSilence)
  {
    var r := SetActive(m, name).0;
    if SetActive(m, name).1 {
      assert r.events[|m.events|..] ==
        [ActiveProfileSaved(r.activeProfile)] + (if m.forceSilence then [] else [SettingsChanged]);
    }
  }

  /** Setting the same name twice reports no change the second time. */
  lemma SetActiveIdempotent(m: ProfileState, name: string)
    ensures !SetActive(SetActive(m, name).0, name).1
  {
  }

  /** profilesList: empty whenever profiles are not in use. */
  function ProfilesList(m: ProfileState): (r: seq<string>)
    ensures !m.useProfiles ==> r == []
    ensures m.useProfiles ==> r == m.profiles
  {
    if m.useProfiles then m.profiles else []
  }

  /** `ps` with its first entry equal to `from` replaced by `to`. */
  function ReplaceFirst(ps: seq<string>, from: string, to: string): (r: seq<string>)
    ensures |r| == |ps|
  {
    match FindFirst(ps, (p: string) => p == from)
      case None => ps
      case Some(i) => ps[i := to]
  }

  /** Only the first occurrence is replaced: every other entry, including
      later copies of `from`, stays, and `from` is left nowhere before the
      replaced position. */
  lemma ReplaceFirstContract(ps: seq<string>, from: string, to: string)
    ensures from !in ps ==> ReplaceFirst(ps, from, to) == ps
    ensures from in ps ==> exists i :: (0 <= i < |ps| && ps[i] == from && from !in ps[..i] &&
              ReplaceFirst(ps, from, to) == ps[i := to])
  {
    var f := FindFirst(ps, (p: string) => p == from);
    if from in ps {
      assert f.Some?;
      var i := f.value;
      assert from !in ps[..i];
    }
  }

  /** The replace loop of migrateProfile, stopping at the first match. */
  method ReplaceFirstIn(ps: seq<string>, from: string, to: string) returns (r: seq<string>)
    ensures r == ReplaceFirst(ps, from, to)
  {
    var i := 0;
    while i < |ps|
      invariant 0 <= i <= |ps|
      invariant forall j :: 0 <= j < i ==> ps[j] != from
    {
      if ps[i] == from {
        var f := FindFirst(ps, (p: string) => p == from);
        assert f.Some? && f.value == i;
        return ps[i := to];
      }
      i := i + 1;
    }
    var f := FindFirst(ps, (p: string) => p == from);
    assert f.None?;
    return ps;
  }

  /** `ps` without its first entry equal to `name`. */
  function WithoutFirst(ps: seq<string>, name: string): (r: seq<string>)
  {
    match FindFirst(ps, (p: string) => p == name)
      case None => ps
      case Some(i) => ps[..i] + ps[i + 1..]
  }

  /** Only the first occurrence goes: one copy of `name` fewer, everything
      else kept in order. */
  lemma WithoutFirstContract(ps: seq<string>, name: string)
    ensures multiset(WithoutFirst(ps, name)) == multiset(ps) - multiset{name}
    ensures name !in ps ==> WithoutFirst(ps, name) == ps
    ensures name in ps ==> exists i :: (0 <= i < |ps| && ps[i] == name && name !in ps[..i] &&
              WithoutFirst(ps, name) == ps[..i] + ps[i + 1..])
  {
    var f := FindFirst(ps, (p: string) => p == name);
    if f.Some? {
      var i := f.value;
      assert ps == ps[..i] + [ps[i]] + ps[i + 1..];
      assert name !in ps[..i];
    } else {
      assert name !in ps;
      assert multiset(ps)[name] == 0;
    }
  }

  /** The removal loop of removeProfile, stopping at the first match. */
  method WithoutFirstIn(ps: seq<string>, name: string) returns (r: seq<string>)
    ensures r == WithoutFirst(ps, name)
  {
    var i := 0;
    while i < |ps|
      invariant 0 <= i <= |ps|
      invariant forall j :: 0 <= j < i ==> ps[j] != name
    {
      if ps[i] == name {
        var f := FindFirst(ps, (p: string) => p == name);
        assert f.Some? && f.value == i;
        return ps[..i] + ps[i + 1..];
      }
      i := i + 1;
    }
    var f := FindFirst(ps, (p: string) => p == name);
    assert f.None?;
    return ps;
  }

  function MigrateStep(m: ProfileState, from: string, to: string): ProfileState {
    if !m.useProfiles then m
    else
      var ps := ReplaceFirst(m.profiles, from, to);
      var m1 := m.(profiles := ps, events := m.events + [ProfilesListSaved(ps)]);
      var m2 := if from == m.activeProfile then SetActive(m1, to).0 else m1;
      m2.(events := m2.events + [ProfileMigrated(from, to), SettingsChanged])
  }

  /** migrateProfile does nothing without profiles; otherwise it renames the
      first matching entry, and the active profile follows a rename of it. */
  lemma MigrateContract(m: ProfileState, from: string, to: string)
    ensures !m.useProfiles ==> MigrateStep(m, from, to) == m
    ensures m.useProfiles ==> MigrateStep(m, from, to).profiles == ReplaceFirst(m.profiles, from, to)
    ensures m.useProfiles ==> (MigrateStep(m, from, to).activeProfile ==
              if from == m.activeProfile then to else m.activeProfile)
    ensures m.useProfiles ==> MigrateStep(m, from, to).forceSilence == m.forceSilence
    ensures m.useProfiles ==> ProfileMigrated(from, to) in MigrateStep(m, from, to).events
  {
    if m.useProfiles {
      var ps := ReplaceFirst(m.profiles, from, to);
      var m1 := m.(profiles := ps, events := m.events + [ProfilesListSaved(ps)]);
      SetActiveContract(m1, to);
      var r := MigrateStep(m, from, to);
      assert r.events[|r.events| - 2] == ProfileMigrated(from, to);
    }
  }

  function RemoveStep(m: ProfileState, name: string): ProfileState {
    if !m.useProfiles then m
    else
      var ps := WithoutFirst(m.profiles, name);
      var m1 := m.(profiles := ps, events := m.events + [ProfilesListSaved(ps)]);
      var m2 := if name == m.activeProfile && ps != [] then SetActive(m1, ps[0]).0 else m1;
      m2.(events := m2.events + [ProfileRemoved(name), SettingsChanged])
  }

  /** removeProfile does nothing without profiles; otherwise it drops the
      first matching entry. A removed active profile is replaced by the
      first remaining entry, or kept when none remains. */
  lemma RemoveContract(m: ProfileState, name: string)
    ensures !m.useProfiles ==> RemoveStep(m, name) == m
    ensures m.useProfiles ==> RemoveStep(m, name).profiles == WithoutFirst(m.profiles, name)
    ensures m.useProfiles && name != m.activeProfile ==> RemoveStep(m, name).activeProfile == m.activeProfile
    ensures m.useProfiles && name == m.activeProfile && RemoveStep(m, name).profiles != [] ==>
              RemoveStep(m, name).activeProfile == RemoveStep(m, name).profiles[0]
    ensures m.useProfiles && name == m.activeProfile && RemoveStep(m, name).profiles == [] ==>
              RemoveStep(m, name).activeProfile == m.activeProfile
    ensures m.useProfiles ==> ProfileRemoved(name) in RemoveStep(m, name).events
  {
    if m.useProfiles {
      var ps := WithoutFirst(m.profiles, name);
      var m1 := m.(profiles := ps, events := m.events + [ProfilesListSaved(ps)]);
      if ps != [] {
        SetActiveContract(m1, ps[0]);
      }
      var r := RemoveStep(m, name);
      assert r.events[|r.events| - 2] == ProfileRemoved(name);
    }
  }

  /** The active profile slotConfigChanged asks for: the configured one if
      it is set and listed, otherwise the first profile. */
  function ConfiguredActive(profiles: seq<string>, active: string): string {
    if active != "" && active in profiles then active else First(profiles)
  }

  /** slotConfigChanged, given the configured use flag, profile list and
      active profile. The final settingsChanged emission is not modelled. */
  function ConfigChangedStep(m: ProfileState, use: bool, profiles: seq<string>, active: string): ProfileState {
    var m1 := m.(useProfiles := use, profiles := profiles, forceSilence := true);
    SetActive(m1, ConfiguredActive(profiles, active)).0.(forceSilence := false)
  }

  /** After slotConfigChanged the manager mirrors the configuration, the
      active-profile change it makes is not announced, and it is no longer
      silenced. */
  lemma ConfigChangedContract(m: ProfileState, use: bool, profiles: seq<string>, active: string)
    ensures ConfigChangedStep(m, use, profiles, active).useProfiles == use
    ensures ConfigChangedStep(m, use, profiles, active).profiles == profiles
    ensures ConfigChangedStep(m, use, profiles, active).activeProfile ==
              (if use then ConfiguredActive(profiles, active) else "")
    ensures !ConfigChangedStep(m, use, profiles, active).forceSilence
    ensures ConfigChangedStep(m, use, profiles, active).events[..|m.events|] == m.events
    ensures SettingsChanged !in ConfigChangedStep(m, use, profiles, active).events[|m.events|..]
  {
    var m1 := m.(useProfiles := use, profiles := profiles, forceSilence := true);
    var r := ConfigChangedStep(m, use, profiles, active);
    SetActiveContract(m1, ConfiguredActive(profiles, active));
    SetActiveSignals(m1, ConfiguredActive(profiles, active));
    if SetActive(m1, ConfiguredActive(profiles, active)).1 {
      assert r.events[|m.events|..] == [ActiveProfileSaved(r.activeProfile)];
    } else {
      assert r.events[|m.events|..] == [];
    }
  }

  /** The configured active profile is always listed when profiles exist. */
  lemma ConfiguredActiveListed(profiles: seq<string>, active: string)
    ensures profiles != [] ==> ConfiguredActive(profiles, active) in profiles
    ensures active != "" && active in profiles ==> ConfiguredActive(profiles, active) == active
  {
  }

  /** The constructor's state, from the stored configuration. */
  function Initial(use: bool, profiles: seq<string>, active: string): ProfileState {
    if use then ProfileState(true, profiles, if active != "" then active else First(profiles), false, [])
    else ProfileState(false, [], "", false, [])
  }

  class ProfileManager {
    var useProfiles: bool
    var profiles: seq<string>
    var activeProfile: string
    var forceSilence: bool
    var events: seq<ProfileEvent>

    function State(): ProfileState
      reads this
    {
      ProfileState(useProfiles, profiles, activeProfile, forceSilence, events)
    }

    constructor (use: bool, configured: seq<string>, active: string)
      ensures State() == Initial(use, configured, active)
    {
      forceSilence := false;
      useProfiles := use;
      events := [];
      if use {
        profiles := configured;
        activeProfile := if active != "" then active else First(configured);
      } else {
        profiles := [];
        activeProfile := "";
      }
    }

    method SetActiveProfile(name: string) returns (changed: bool)
      modifies this
      ensures (State(), changed) == SetActive(old(State()), name)
    {
      changed := false;
      if useProfiles {
        if name != activeProfile {
          activeProfile := name;
          changed := true;
        }
      } else {
        if activeProfile != "" {
          activeProfile := "";
          changed := true;
        }
      }
      if changed {
        events := events + [ActiveProfileSaved(activeProfile)] + (if forceSilence then [] else [SettingsChanged]);
      }
    }

    method ProfilesListOf() returns (r: seq<string>)
      ensures r == ProfilesList(State())
    {
      r := if useProfiles then profiles else [];
    }

    method MigrateProfile(from: string, to: string)
      modifies this
      ensures State() == MigrateStep(old(State()), from, to)
    {
      if useProfiles {
        profiles := ReplaceFirstIn(profiles, from, to);
        events := events + [ProfilesListSaved(profiles)];
        if from == activeProfile {
          var _ := SetActiveProfile(to);
        }
        events := events + [ProfileMigrated(from, to), SettingsChanged];
      }
    }

    method RemoveProfile(name: string)
      modifies this
      ensures State() == RemoveStep(old(State()), name)
    {
      if useProfiles {
        profiles := WithoutFirstIn(profiles, name);
        events := events + [ProfilesListSaved(profiles)];
        if name == activeProfile && profiles != [] {
          var _ := SetActiveProfile(profiles[0]);
        }
        events := events + [ProfileRemoved(name), SettingsChanged];
      }
    }

    method ConfigChanged(use: bool, configured: seq<string>, active: string)
      modifies this
      ensures State() == ConfigChangedStep(old(State()), use, configured, active)
    {
      useProfiles := use;
      profiles := configured;
      forceSilence := true;
      var name := if active != "" && active in profiles then active else First(profiles);
      var _ := SetActiveProfile(name);
      forceSilence := false;
    }
  }
}
