/**
 * The parts of a connection profile that the profile list, the group tree
 * and the group map look at.  A profile is a value here: its name, URL and
 * user name (each possibly missing), its tags, the path of groups it sits
 * in, and its three change marks: edited, moved to another group, and new.
 */
module ConnectionProfiles {
  import opened Text

  datatype Profile = Profile(
    name: Option<string>,
    url: Option<string>,
    username: Option<string>,
    tags: set<string>,
    groups: seq<string>,
    changed: bool,
    groupChanged: bool,
    isNew: bool)

  /** `StringUtil.coalesce(value, "")`. */
  function OrEmpty(s: Option<string>): string
  {
    if s.Some? then s.value else ""
  }

  /**
   * `isChanged` of one profile: edited, or new.  A new profile counts as a
   * change of the list, as the list model's `profilesAreModified` expects.
   */
  predicate ProfileChanged(p: Profile)
  {
    p.changed || p.isNew
  }

  /**
   * `setGroups`: the profile moved to another group path.  A path that
   * differs from the current one marks the group change; nothing else changes.
   */
  function WithGroups(p: Profile, path: seq<string>): (r: Profile)
    ensures r.groups == path
    ensures r.groupChanged <==> p.groupChanged || path != p.groups
    ensures r.(groups := p.groups, groupChanged := p.groupChanged) == p
  {
    p.(groups := path, groupChanged := p.groupChanged || path != p.groups)
  }

  /** `setNew`: the profile is marked as new, and so counts as changed. */
  function SetNew(p: Profile): (r: Profile)
    ensures r.isNew && ProfileChanged(r)
    ensures r.(isNew := p.isNew) == p
  {
    p.(isNew := true)
  }
}
