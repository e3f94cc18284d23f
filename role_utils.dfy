/**
 * The colour a member's name is drawn in: the colour of their highest
 * role. The roles are sorted by position, highest first, on a copy, and
 * the colour of the first one is taken; white stands in when there is no
 * role or the top role has no colour.
 */
module RoleUtils {
  import opened Common

  const DefaultColor: string := "#ffffff"

  datatype Role = Role(position: Option<int>, color: Option<string>)

  /** A member's assignment of a role; the role itself may be missing. */
  datatype MemberRole = MemberRole(role: Option<Role>)

  /** `role?.position || 0`: a missing role or position sorts as position 0. */
  function Position(mr: MemberRole): (p: int)
    ensures mr.role.None? || mr.role.value.position.None? ==> p == 0
    ensures mr.role.Some? && mr.role.value.position.Some? ==> p == mr.role.value.position.value
  {
    if mr.role.Some? && mr.role.value.position.Some? then mr.role.value.position.value else 0
  }

  /**
   * Inserts `x` into a list already sorted highest first, after every
   * entry of the same or higher position, as a stable sort does.
   */
  function InsertByPosition(x: MemberRole, s: seq<MemberRole>): (r: seq<MemberRole>)
    ensures multiset(r) == multiset(s) + multiset{x}
    ensures |r| == |s| + 1
  {
    if s == [] then [x]
    else if Position(x) > Position(s[0]) then [x] + s
    else
      assert s == [s[0]] + s[1..];
      [s[0]] + InsertByPosition(x, s[1..])
  }

  /** The sorted copy: a stable sort by position, highest first. */
  function SortByPosition(rs: seq<MemberRole>): (r: seq<MemberRole>)
    ensures multiset(r) == multiset(rs)
    ensures |r| == |rs|
  {
    if rs == [] then []
    else
      assert rs == rs[..|rs| - 1] + [rs[|rs| - 1]];
      InsertByPosition(rs[|rs| - 1], SortByPosition(rs[..|rs| - 1]))
  }

  predicate SortedByPosition(s: seq<MemberRole>) {
    forall i, j :: 0 <= i < j < |s| ==> Position(s[i]) >= Position(s[j])
  }

  lemma {:induction false} InsertKeepsSorted(x: MemberRole, s: seq<MemberRole>)
    requires SortedByPosition(s)
    ensures SortedByPosition(InsertByPosition(x, s))
  {
    if s != [] && Position(x) <= Position(s[0]) {
      InsertKeepsSorted(x, s[1..]);
      var t := InsertByPosition(x, s[1..]);
      assert forall m :: m in multiset(t) ==> m == x || m in multiset(s[1..]);
      forall k | 0 <= k < |t|
        ensures Position(s[0]) >= Position(t[k])
      {
        assert t[k] in multiset(t);
        if t[k] != x {
          assert t[k] in s[1..];
        }
      }
    }
  }

  /** The copy is sorted highest first. */
  lemma {:induction false} SortIsSorted(rs: seq<MemberRole>)
    ensures SortedByPosition(SortByPosition(rs))
  {
    if rs != [] {
      SortIsSorted(rs[..|rs| - 1]);
      InsertKeepsSorted(rs[|rs| - 1], SortByPosition(rs[..|rs| - 1]));
    }
  }

  /** The position of the first role of the highest position. */
  function TopIndex(rs: seq<MemberRole>): (t: nat)
    requires |rs| > 0
    ensures t < |rs|
    ensures forall k :: 0 <= k < |rs| ==> Position(rs[k]) <= Position(rs[t])
    ensures forall k :: 0 <= k < t ==> Position(rs[k]) < Position(rs[t])
  {
    if |rs| == 1 then 0
    else
      var t := TopIndex(rs[..|rs| - 1]);
      assert forall k :: 0 <= k < |rs| - 1 ==> rs[..|rs| - 1][k] == rs[k];
      if Position(rs[|rs| - 1]) > Position(rs[t]) then |rs| - 1 else t
  }

  /** The head of the stable sort is the earliest of the roles of highest position. */
  lemma {:induction false} SortHeadIsTop(rs: seq<MemberRole>)
    requires |rs| > 0
    ensures SortByPosition(rs)[0] == rs[TopIndex(rs)]
  {
    if |rs| > 1 {
      var p := rs[..|rs| - 1];
      SortHeadIsTop(p);
      assert rs[TopIndex(p)] == p[TopIndex(p)];
    }
  }

  /** `x || '#ffffff'` for a colour. */
  function ColorOrDefault(color: Option<string>): (c: string)
    ensures Truthy(color) ==> c == color.value
    ensures !Truthy(color) ==> c == DefaultColor
  {
    if Truthy(color) then color.value else DefaultColor
  }

  /** The colour of a member's name. */
  function RoleColor(memberRoles: Option<seq<MemberRole>>): (c: string)
    ensures memberRoles.None? || memberRoles.value == [] ==> c == DefaultColor
  {
    if memberRoles.None? || |memberRoles.value| == 0 then DefaultColor
    else
      var top := SortByPosition(memberRoles.value)[0];
      ColorOrDefault(if top.role.Some? then top.role.value.color else None)
  }

  /**
   * The name takes the colour of a role of highest position (the first
   * such role the member has), or white when that role has no colour.
   */
  lemma RoleColorIsTopColor(rs: seq<MemberRole>)
    requires |rs| > 0
    ensures var top := rs[TopIndex(rs)];
      && (forall k :: 0 <= k < |rs| ==> Position(rs[k]) <= Position(top))
      && RoleColor(Some(rs)) == ColorOrDefault(if top.role.Some? then top.role.value.color else None)
  {
    SortHeadIsTop(rs);
  }

  /** Any role the member has whose position is strictly highest gives the colour. */
  lemma UniqueTopDecides(rs: seq<MemberRole>, k: nat)
    requires k < |rs|
    requires forall j :: 0 <= j < |rs| && j != k ==> Position(rs[j]) < Position(rs[k])
    ensures RoleColor(Some(rs)) == ColorOrDefault(if rs[k].role.Some? then rs[k].role.value.color else None)
  {
    SortHeadIsTop(rs);
    assert TopIndex(rs) == k;
  }
}
