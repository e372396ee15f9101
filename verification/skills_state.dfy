/**
 * The loaded skill catalogue (AutoBot `SkillsState`): user-level and
 * project-level skills, merged so that a project skill overrides a user
 * skill of the same name (compared ordinally, ignoring case).
 */
module Catalog {
  import opened Wrappers
  import opened Text
  import opened Skills

  /** `SkillsState`; `lastRefreshed` is the clock reading taken when it was built. */
  datatype SkillsState = SkillsState(
    userSkills: seq<SkillMetadata>,
    projectSkills: seq<SkillMetadata>,
    lastRefreshed: int)

  predicate Named(m: SkillMetadata, n: string) {
    EqualsIgnoreCase(m.name, n)
  }

  /** Some skill of `xs` carries the name `n`, ignoring case. */
  predicate HasNamed(xs: seq<SkillMetadata>, n: string) {
    exists i :: 0 <= i < |xs| && Named(xs[i], n)
  }

  /** The skills of `user` whose names no skill of `project` carries, in order. */
  function WithoutOverrides(user: seq<SkillMetadata>, project: seq<SkillMetadata>): (r: seq<SkillMetadata>)
    ensures forall x :: x in r <==> x in user && !HasNamed(project, x.name)
    ensures |r| <= |user|
  {
    if user == [] then []
    else
      var rest := WithoutOverrides(user[1..], project);
      if HasNamed(project, user[0].name) then rest else [user[0]] + rest
  }

  /** Filtering a concatenation filters each part, so surviving skills keep their relative order. */
  lemma {:induction false} WithoutOverridesAppend(a: seq<SkillMetadata>, b: seq<SkillMetadata>, project: seq<SkillMetadata>)
    ensures WithoutOverrides(a + b, project) == WithoutOverrides(a, project) + WithoutOverrides(b, project)
  {
    if a == [] {
      assert a + b == b;
    } else {
      assert (a + b)[0] == a[0];
      assert (a + b)[1..] == a[1..] + b;
      WithoutOverridesAppend(a[1..], b, project);
    }
  }

  /** With no clash of names the user skills survive unchanged and in order. */
  lemma {:induction false} WithoutOverridesNoClash(user: seq<SkillMetadata>, project: seq<SkillMetadata>)
    requires forall i :: 0 <= i < |user| ==> !HasNamed(project, user[i].name)
    ensures WithoutOverrides(user, project) == user
  {
    if user != [] {
      WithoutOverridesNoClash(user[1..], project);
    }
  }

  /** `AllSkills`: every project skill, then the user skills they do not override. */
  function AllSkills(st: SkillsState): (r: seq<SkillMetadata>)
    ensures st.projectSkills <= r
    ensures forall x :: x in r[|st.projectSkills|..] <==>
      x in st.userSkills && !HasNamed(st.projectSkills, x.name)
  {
    st.projectSkills + WithoutOverrides(st.userSkills, st.projectSkills)
  }

  /** `FirstOrDefault` of the skills named `n`. */
  function FirstNamed(xs: seq<SkillMetadata>, n: string): (r: Option<SkillMetadata>)
    ensures r.None? <==> !HasNamed(xs, n)
    ensures r.Some? ==> r.value in xs && Named(r.value, n)
  {
    if xs == [] then None
    else if Named(xs[0], n) then Some(xs[0])
    else
      assert forall i :: 1 <= i < |xs| ==> xs[i] == xs[1..][i - 1];
      FirstNamed(xs[1..], n)
  }

  /** `GetSkill(name)`: the first project skill of that name, else the first user skill, else null. */
  function GetSkill(st: SkillsState, n: string): (r: Option<SkillMetadata>)
    ensures HasNamed(st.projectSkills, n) ==> r == FirstNamed(st.projectSkills, n)
    ensures !HasNamed(st.projectSkills, n) ==> r == FirstNamed(st.userSkills, n)
  {
    match FirstNamed(st.projectSkills, n)
    case Some(m) => Some(m)
    case None => FirstNamed(st.userSkills, n)
  }

  // ---------------------------------------------------------------------
  // Lookup agrees with the merged list
  // ---------------------------------------------------------------------

  /** The first match of a concatenation is the first match of its first part, if any. */
  lemma {:induction false} FirstNamedAppend(xs: seq<SkillMetadata>, ys: seq<SkillMetadata>, n: string)
    ensures FirstNamed(xs + ys, n) ==
      (if HasNamed(xs, n) then FirstNamed(xs, n) else FirstNamed(ys, n))
  {
    if xs != [] {
      var zs := xs + ys;
      assert zs[0] == xs[0];
      assert zs[1..] == xs[1..] + ys;
      FirstNamedAppend(xs[1..], ys, n);
      HasNamedTail(xs, n);
    } else {
      assert xs + ys == ys;
    }
  }

  /** A name occurs in a non-empty list iff the head carries it or it occurs in the tail. */
  lemma HasNamedTail(xs: seq<SkillMetadata>, n: string)
    requires xs != []
    ensures HasNamed(xs, n) <==> Named(xs[0], n) || HasNamed(xs[1..], n)
  {
    if HasNamed(xs, n) && !Named(xs[0], n) {
      var i :| 0 <= i < |xs| && Named(xs[i], n);
      assert xs[1..][i - 1] == xs[i];
    }
    if HasNamed(xs[1..], n) {
      var i :| 0 <= i < |xs[1..]| && Named(xs[1..][i], n);
      assert xs[i + 1] == xs[1..][i];
    }
  }

  /** Names are compared through their folded form, so sharing a name is transitive. */
  lemma NamedTransfer(m: SkillMetadata, project: seq<SkillMetadata>, n: string)
    requires Named(m, n) && !HasNamed(project, n)
    ensures !HasNamed(project, m.name)
  {
  }

  /** Dropping overridden skills does not change the first match of a name no project skill has. */
  lemma {:induction false} FirstNamedWithoutOverrides(user: seq<SkillMetadata>, project: seq<SkillMetadata>, n: string)
    requires !HasNamed(project, n)
    ensures FirstNamed(WithoutOverrides(user, project), n) == FirstNamed(user, n)
  {
    if user != [] {
      FirstNamedWithoutOverrides(user[1..], project, n);
      if Named(user[0], n) {
        NamedTransfer(user[0], project, n);
      }
    }
  }

  /** `GetSkill` returns exactly the first skill of `AllSkills` with that name. */
  lemma GetSkillIsFirstOfAllSkills(st: SkillsState, n: string)
    ensures GetSkill(st, n) == FirstNamed(AllSkills(st), n)
  {
    FirstNamedAppend(st.projectSkills, WithoutOverrides(st.userSkills, st.projectSkills), n);
    if !HasNamed(st.projectSkills, n) {
      FirstNamedWithoutOverrides(st.userSkills, st.projectSkills, n);
    }
  }

  /** A skill found by `GetSkill` carries the name asked for and is listed in `AllSkills`. */
  lemma GetSkillIsListed(st: SkillsState, n: string)
    ensures GetSkill(st, n).Some? ==>
      Named(GetSkill(st, n).value, n) && GetSkill(st, n).value in AllSkills(st)
  {
    GetSkillIsFirstOfAllSkills(st, n);
  }

  /**
   * When a name exists at both levels only the project version is exposed:
   * lookup returns a project skill, and no user skill of that name survives
   * the merge.
   */
  lemma ProjectShadowsUser(st: SkillsState, n: string)
    requires HasNamed(st.projectSkills, n)
    ensures GetSkill(st, n).Some? && GetSkill(st, n).value in st.projectSkills
    ensures forall i :: |st.projectSkills| <= i < |AllSkills(st)| ==> !Named(AllSkills(st)[i], n)
  {
    var all := AllSkills(st);
    forall i | |st.projectSkills| <= i < |all|
      ensures !Named(all[i], n)
    {
      var x := all[i];
      assert x in all[|st.projectSkills|..];
      assert !HasNamed(st.projectSkills, x.name);
    }
  }
}
