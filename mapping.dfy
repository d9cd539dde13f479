/**
 * Role and user mappings of the aws-auth ConfigMap and the merge of two mapping lists
 * (mapping.go). A merge appends list B to list A and refuses when an entry of B carries
 * an ARN that some entry of A already carries.
 */
module Mapping {
  import opened Wrappers

  /** Which kind of mapping a list holds; it is named in the conflict error. */
  datatype MappingType = RoleMappingType | UserMappingType

  /** An IAM role mapped to a Kubernetes user name and groups, keyed by `roleArn`. */
  datatype RoleMapping = RoleMapping(roleArn: string, username: string, groups: seq<string>)

  /** An IAM user mapped to a Kubernetes user name and groups, keyed by `userArn`. */
  datatype UserMapping = UserMapping(userArn: string, username: string, groups: seq<string>)

  /** The error a merge returns for the first entry of B whose ARN is already in A. */
  datatype MappingConflictErr = MappingConflictErr(mappingType: MappingType, arn: string)

  function RoleArnOf(m: RoleMapping): string { m.roleArn }

  function UserArnOf(m: UserMapping): string { m.userArn }

  /** The set of ARNs the entries of `s` are keyed on. */
  function Arns<T>(s: seq<T>, key: T -> string): set<string> {
    set i | 0 <= i < |s| :: key(s[i])
  }

  /**
   * The position of the first entry of `b` whose ARN is in `seen`, if there is one.
   */
  function FirstCollision<T>(seen: set<string>, b: seq<T>, key: T -> string): (r: Option<nat>)
    ensures r.Some? ==> r.value < |b| && key(b[r.value]) in seen
    ensures r.Some? ==> forall k :: 0 <= k < r.value ==> key(b[k]) !in seen
    ensures r.None? <==> forall k :: 0 <= k < |b| ==> key(b[k]) !in seen
  {
    if b == [] then None
    else if key(b[0]) in seen then Some(0)
    else
      match FirstCollision(seen, b[1..], key)
      case None => None
      case Some(j) => Some(j + 1)
  }

  /**
   * What merging `a` with `b` is meant to give: the entries of `a` followed by those of `b`,
   * or, when some entry of `b` has an ARN found in `a`, a conflict naming the first such ARN
   * of `b` and no list at all.
   */
  function MergedLists<T>(kind: MappingType, a: seq<T>, b: seq<T>, key: T -> string)
    : Result<seq<T>, MappingConflictErr>
  {
    match FirstCollision(Arns(a, key), b, key)
    case None => Success(a + b)
    case Some(j) => Failure(MappingConflictErr(kind, key(b[j])))
  }

  /** mergeRoleMappingLists: fills a seen-set from A, appends A, then appends B unless a B entry was seen. */
  method MergeRoleMappingLists(roleMappingA: seq<RoleMapping>, roleMappingB: seq<RoleMapping>)
    returns (r: Result<seq<RoleMapping>, MappingConflictErr>)
    ensures r == MergedLists(RoleMappingType, roleMappingA, roleMappingB, RoleArnOf)
  {
    var seen: map<string, bool> := map[];
    var newRoleMapping: seq<RoleMapping> := [];
    for i := 0 to |roleMappingA|
      invariant seen.Keys == Arns(roleMappingA[..i], RoleArnOf)
      invariant newRoleMapping == roleMappingA[..i]
    {
      assert roleMappingA[..i + 1] == roleMappingA[..i] + [roleMappingA[i]];
      seen := seen[roleMappingA[i].roleArn := true];
      newRoleMapping := newRoleMapping + [roleMappingA[i]];
    }
    assert roleMappingA[..|roleMappingA|] == roleMappingA;
    for j := 0 to |roleMappingB|
      invariant newRoleMapping == roleMappingA + roleMappingB[..j]
      invariant forall k :: 0 <= k < j ==> RoleArnOf(roleMappingB[k]) !in seen
    {
      if roleMappingB[j].roleArn in seen {
        return Failure(MappingConflictErr(RoleMappingType, roleMappingB[j].roleArn));
      }
      assert roleMappingB[..j + 1] == roleMappingB[..j] + [roleMappingB[j]];
      newRoleMapping := newRoleMapping + [roleMappingB[j]];
    }
    assert roleMappingB[..|roleMappingB|] == roleMappingB;
    return Success(newRoleMapping);
  }

  /** mergeUserMappingLists: the same algorithm keyed on the user ARN. */
  method MergeUserMappingLists(userMappingA: seq<UserMapping>, userMappingB: seq<UserMapping>)
    returns (r: Result<seq<UserMapping>, MappingConflictErr>)
    ensures r == MergedLists(UserMappingType, userMappingA, userMappingB, UserArnOf)
  {
    var seen: map<string, bool> := map[];
    var newUserMapping: seq<UserMapping> := [];
    for i := 0 to |userMappingA|
      invariant seen.Keys == Arns(userMappingA[..i], UserArnOf)
      invariant newUserMapping == userMappingA[..i]
    {
      assert userMappingA[..i + 1] == userMappingA[..i] + [userMappingA[i]];
      seen := seen[userMappingA[i].userArn := true];
      newUserMapping := newUserMapping + [userMappingA[i]];
    }
    assert userMappingA[..|userMappingA|] == userMappingA;
    for j := 0 to |userMappingB|
      invariant newUserMapping == userMappingA + userMappingB[..j]
      invariant forall k :: 0 <= k < j ==> UserArnOf(userMappingB[k]) !in seen
    {
      if userMappingB[j].userArn in seen {
        return Failure(MappingConflictErr(UserMappingType, userMappingB[j].userArn));
      }
      assert userMappingB[..j + 1] == userMappingB[..j] + [userMappingB[j]];
      newUserMapping := newUserMapping + [userMappingB[j]];
    }
    assert userMappingB[..|userMappingB|] == userMappingB;
    return Success(newUserMapping);
  }

  // Properties of the merge

  /**
   * Without a conflict the result is A followed by B, both in their own order, of length |A| + |B|.
   * On a conflict there is no list, and the error names the mapping kind and the ARN of the first
   * colliding entry of B, taken in B's order.
   */
  lemma MergeOutcome<T>(kind: MappingType, a: seq<T>, b: seq<T>, key: T -> string)
    ensures var r := MergedLists(kind, a, b, key);
            && (r.Success? ==> r.value == a + b && |r.value| == |a| + |b|)
            && (r.Failure? ==>
                  (exists j :: 0 <= j < |b| && r.error == MappingConflictErr(kind, key(b[j]))
                     && key(b[j]) in Arns(a, key)
                     && (forall k :: 0 <= k < j ==> key(b[k]) !in Arns(a, key))))
  {
    var r := MergedLists(kind, a, b, key);
    if r.Failure? {
      var j := FirstCollision(Arns(a, key), b, key).value;
      assert r.error == MappingConflictErr(kind, key(b[j]));
    }
  }

  /**
   * Duplicated ARNs inside A, or inside B, are not conflicts: only ARNs shared between the two
   * lists are. Here A repeats one ARN, B repeats another, and the merge still succeeds.
   */
  lemma {:induction false} DuplicatesWithinOneListAreNoConflict(r1: RoleMapping, r2: RoleMapping)
    requires r1.roleArn != r2.roleArn
    ensures MergedLists(RoleMappingType, [r1, r1], [r2, r2], RoleArnOf) == Success([r1, r1, r2, r2])
  {
    var a, b := [r1, r1], [r2, r2];
    forall j | 0 <= j < |b|
      ensures RoleArnOf(b[j]) !in Arns(a, RoleArnOf)
    {
      assert forall i :: 0 <= i < |a| ==> RoleArnOf(a[i]) == r1.roleArn;
    }
    assert FirstCollision(Arns(a, RoleArnOf), b, RoleArnOf) == None;
    assert a + b == [r1, r1, r2, r2];
  }

  /** Merging two empty lists succeeds with the empty list (not a missing list). */
  lemma MergeEmpty<T>(kind: MappingType, key: T -> string)
    ensures MergedLists(kind, [], [], key) == Success([])
  {
    var empty: seq<T> := [];
    assert FirstCollision(Arns(empty, key), empty, key) == None;
    assert empty + empty == empty;
  }

  /** The ARNs of a concatenation are the ARNs of its parts. */
  lemma ArnsConcat<T>(a: seq<T>, b: seq<T>, key: T -> string)
    ensures Arns(a + b, key) == Arns(a, key) + Arns(b, key)
  {
    forall x | x in Arns(a + b, key)
      ensures x in Arns(a, key) + Arns(b, key)
    {
      var i :| 0 <= i < |a + b| && key((a + b)[i]) == x;
      if i < |a| {
        assert key(a[i]) == x;
      } else {
        assert key(b[i - |a|]) == x;
      }
    }
    forall x | x in Arns(a, key) + Arns(b, key)
      ensures x in Arns(a + b, key)
    {
      if x in Arns(a, key) {
        var i :| 0 <= i < |a| && key(a[i]) == x;
        assert (a + b)[i] == a[i];
      } else {
        var i :| 0 <= i < |b| && key(b[i]) == x;
        assert (a + b)[|a| + i] == b[i];
      }
    }
  }

  lemma ArnsSingleton<T>(x: T, key: T -> string)
    ensures Arns([x], key) == {key(x)}
  {
    assert [x][0] == x;
  }

  /** A merge succeeds exactly when the two lists have no ARN in common. */
  lemma MergeSucceedsIffDisjoint<T>(kind: MappingType, a: seq<T>, b: seq<T>, key: T -> string)
    ensures MergedLists(kind, a, b, key).Success? <==> Arns(a, key) !! Arns(b, key)
  {
    if MergedLists(kind, a, b, key).Success? {
      forall x | x in Arns(b, key)
        ensures x !in Arns(a, key)
      {
        var j :| 0 <= j < |b| && key(b[j]) == x;
      }
    } else {
      var j := FirstCollision(Arns(a, key), b, key).value;
      assert key(b[j]) in Arns(b, key);
    }
  }

  /**
   * Merging is associative when no step meets a conflict: folding C onto the merge of A and B
   * gives the same list as folding the merge of B and C onto A.
   */
  lemma MergeAssociative<T>(kind: MappingType, a: seq<T>, b: seq<T>, c: seq<T>, key: T -> string)
    requires MergedLists(kind, a, b, key).Success?
    requires MergedLists(kind, a + b, c, key).Success?
    ensures MergedLists(kind, b, c, key).Success?
    ensures MergedLists(kind, a, b + c, key).Success?
    ensures MergedLists(kind, MergedLists(kind, a, b, key).value, c, key)
         == MergedLists(kind, a, MergedLists(kind, b, c, key).value, key)
  {
    MergeSucceedsIffDisjoint(kind, a, b, key);
    MergeSucceedsIffDisjoint(kind, a + b, c, key);
    ArnsConcat(a, b, key);
    MergeSucceedsIffDisjoint(kind, b, c, key);
    ArnsConcat(b, c, key);
    MergeSucceedsIffDisjoint(kind, a, b + c, key);
    assert (a + b) + c == a + (b + c);
  }
}
