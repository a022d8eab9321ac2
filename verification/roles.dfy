/**
 * Cluster-role lookup (internal/roles/clusterroles.go): the role names bound
 * to a user or service-account name by the cluster's ClusterRoleBindings.
 */
module Roles {
  import opened Wrappers

  /** The two Kubernetes subject kinds a name is matched against. */
  const UserKind: string := "User"
  const ServiceAccountKind: string := "ServiceAccount"

  datatype Subject = Subject(kind: string, name: string)

  /** A ClusterRoleBinding, reduced to its subjects and the name of its role. */
  datatype ClusterRoleBinding = ClusterRoleBinding(subjects: seq<Subject>, roleRef: string)

  /** A subject counts when its kind is User or ServiceAccount and its name is `name`. */
  predicate Matches(sub: Subject, name: string) {
    (sub.kind == UserKind || sub.kind == ServiceAccountKind) && sub.name == name
  }

  /** One copy of `roleRef` per matching subject, in subject order. */
  function SubjectRoles(subjects: seq<Subject>, roleRef: string, name: string): seq<string>
  {
    if subjects == [] then []
    else
      var last := subjects[|subjects| - 1];
      SubjectRoles(subjects[..|subjects| - 1], roleRef, name) + (if Matches(last, name) then [roleRef] else [])
  }

  /** The roles of all bindings, binding by binding, duplicates kept. */
  function BoundRoles(bindings: seq<ClusterRoleBinding>, name: string): seq<string>
  {
    if bindings == [] then []
    else
      var last := bindings[|bindings| - 1];
      BoundRoles(bindings[..|bindings| - 1], name) + SubjectRoles(last.subjects, last.roleRef, name)
  }

  datatype RolesError = ListFailed

  /**
   * `GetClusterRoles`: `listed` is the answer of the ClusterRoleBinding list
   * call (None when it fails). Every matching (binding, subject) pair appends
   * the binding's role name.
   */
  method GetClusterRoles(listed: Option<seq<ClusterRoleBinding>>, name: string)
    returns (r: Result<seq<string>, RolesError>)
    ensures listed.None? ==> r == Err(ListFailed)
    ensures listed.Some? ==> r == Ok(BoundRoles(listed.value, name))
  {
    if listed.None? {
      return Err(ListFailed);
    }
    var bindings := listed.value;
    var roles: seq<string> := [];
    for i := 0 to |bindings|
      invariant roles == BoundRoles(bindings[..i], name)
    {
      var crb := bindings[i];
      ghost var before := roles;
      for j := 0 to |crb.subjects|
        invariant roles == before + SubjectRoles(crb.subjects[..j], crb.roleRef, name)
      {
        var subject := crb.subjects[j];
        if (subject.kind == UserKind || subject.kind == ServiceAccountKind) && subject.name == name {
          roles := roles + [crb.roleRef];
        }
        assert crb.subjects[..j + 1][..j] == crb.subjects[..j];
      }
      assert crb.subjects[..|crb.subjects|] == crb.subjects;
      assert bindings[..i + 1][..i] == bindings[..i];
    }
    assert bindings[..|bindings|] == bindings;
    return Ok(roles);
  }

  /** Every entry contributed by one binding is that binding's role. */
  lemma {:induction false} SubjectRolesAreRoleRef(subjects: seq<Subject>, roleRef: string, name: string)
    ensures forall k :: 0 <= k < |SubjectRoles(subjects, roleRef, name)| ==> SubjectRoles(subjects, roleRef, name)[k] == roleRef
  {
    if subjects != [] {
      SubjectRolesAreRoleRef(subjects[..|subjects| - 1], roleRef, name);
    }
  }

  /** A binding contributes entries exactly when one of its subjects matches. */
  lemma {:induction false} SubjectRolesNonEmptyIff(subjects: seq<Subject>, roleRef: string, name: string)
    ensures SubjectRoles(subjects, roleRef, name) != [] <==> exists j :: 0 <= j < |subjects| && Matches(subjects[j], name)
  {
    if subjects != [] {
      var init := subjects[..|subjects| - 1];
      SubjectRolesNonEmptyIff(init, roleRef, name);
      if exists j :: 0 <= j < |init| && Matches(init[j], name) {
        var j :| 0 <= j < |init| && Matches(init[j], name);
        assert subjects[j] == init[j];
      }
      if exists j :: 0 <= j < |subjects| && Matches(subjects[j], name) {
        var j :| 0 <= j < |subjects| && Matches(subjects[j], name);
        if j < |init| {
          assert init[j] == subjects[j];
        }
      }
    }
  }

  /** The indices of the matching subjects of a binding. */
  function MatchingIndices(subjects: seq<Subject>, name: string): set<int>
  {
    set j | 0 <= j < |subjects| && Matches(subjects[j], name)
  }

  /** A binding contributes one entry per matching subject. */
  lemma {:induction false} SubjectRolesCount(subjects: seq<Subject>, roleRef: string, name: string)
    ensures |SubjectRoles(subjects, roleRef, name)| == |MatchingIndices(subjects, name)|
  {
    if subjects == [] {
      assert MatchingIndices(subjects, name) == {};
    } else {
      var n := |subjects| - 1;
      var init := subjects[..n];
      SubjectRolesCount(init, roleRef, name);
      var before := MatchingIndices(init, name);
      var after := MatchingIndices(subjects, name);
      assert n !in before;
      if Matches(subjects[n], name) {
        assert after == before + {n};
      } else {
        assert after == before;
      }
    }
  }

  /** The number of matching (binding, subject) pairs. */
  function MatchingPairs(bindings: seq<ClusterRoleBinding>, name: string): nat
  {
    if bindings == [] then 0
    else
      var last := bindings[|bindings| - 1];
      MatchingPairs(bindings[..|bindings| - 1], name) + |MatchingIndices(last.subjects, name)|
  }

  /** One role name is returned per matching (binding, subject) pair, duplicates included. */
  lemma {:induction false} BoundRolesCount(bindings: seq<ClusterRoleBinding>, name: string)
    ensures |BoundRoles(bindings, name)| == MatchingPairs(bindings, name)
  {
    if bindings != [] {
      var last := bindings[|bindings| - 1];
      BoundRolesCount(bindings[..|bindings| - 1], name);
      SubjectRolesCount(last.subjects, last.roleRef, name);
    }
  }

  /** Bindings are visited in list order: the roles of a concatenation concatenate. */
  lemma {:induction false} BoundRolesAppend(xs: seq<ClusterRoleBinding>, ys: seq<ClusterRoleBinding>, name: string)
    ensures BoundRoles(xs + ys, name) == BoundRoles(xs, name) + BoundRoles(ys, name)
    decreases |ys|
  {
    if ys == [] {
      assert xs + ys == xs;
    } else {
      var n := |ys| - 1;
      assert (xs + ys)[..|xs + ys| - 1] == xs + ys[..n];
      BoundRolesAppend(xs, ys[..n], name);
    }
  }

  /** A binding grants `role` to `name` when its role is `role` and one of its subjects matches. */
  predicate Grants(b: ClusterRoleBinding, name: string, role: string) {
    b.roleRef == role && exists j :: 0 <= j < |b.subjects| && Matches(b.subjects[j], name)
  }

  /** One binding's contribution holds `role` exactly when that binding grants it. */
  lemma SubjectRolesMembership(b: ClusterRoleBinding, name: string, role: string)
    ensures role in SubjectRoles(b.subjects, b.roleRef, name) <==> Grants(b, name, role)
  {
    SubjectRolesAreRoleRef(b.subjects, b.roleRef, name);
    SubjectRolesNonEmptyIff(b.subjects, b.roleRef, name);
    var mine := SubjectRoles(b.subjects, b.roleRef, name);
    if mine != [] && b.roleRef == role {
      assert mine[0] == role;
    }
  }

  /** A role is returned exactly when some listed binding grants it to the name. */
  lemma {:induction false} BoundRolesMembership(bindings: seq<ClusterRoleBinding>, name: string, role: string)
    ensures role in BoundRoles(bindings, name) <==> exists i :: 0 <= i < |bindings| && Grants(bindings[i], name, role)
  {
    if bindings != [] {
      var n := |bindings| - 1;
      var init := bindings[..n];
      BoundRolesMembership(init, name, role);
      SubjectRolesMembership(bindings[n], name, role);
      if exists i :: 0 <= i < |init| && Grants(init[i], name, role) {
        var i :| 0 <= i < |init| && Grants(init[i], name, role);
        assert bindings[i] == init[i];
      }
      if exists i :: 0 <= i < |bindings| && Grants(bindings[i], name, role) {
        var i :| 0 <= i < |bindings| && Grants(bindings[i], name, role);
        if i < n {
          assert init[i] == bindings[i];
        }
      }
    }
  }

  /**
   * The cases of the cluster-role lookup tests: one or two bindings naming
   * "test-sa" as a User or as a ServiceAccount, and no bindings at all.
   */
  lemma LookupExamples()
    ensures BoundRoles([ClusterRoleBinding([Subject(UserKind, "test-sa")], "role1")], "test-sa") == ["role1"]
    ensures BoundRoles([ClusterRoleBinding([Subject(ServiceAccountKind, "test-sa")], "role1")], "test-sa") == ["role1"]
    ensures BoundRoles([ClusterRoleBinding([Subject(UserKind, "test-sa")], "role1"),
                        ClusterRoleBinding([Subject(UserKind, "test-sa")], "role2")], "test-sa") == ["role1", "role2"]
    ensures BoundRoles([ClusterRoleBinding([Subject(ServiceAccountKind, "test-sa")], "role1"),
                        ClusterRoleBinding([Subject(ServiceAccountKind, "test-sa")], "role2")], "test-sa") == ["role1", "role2"]
    ensures BoundRoles([], "test-sa") == []
  {
    var u1 := ClusterRoleBinding([Subject(UserKind, "test-sa")], "role1");
    var u2 := ClusterRoleBinding([Subject(UserKind, "test-sa")], "role2");
    var a1 := ClusterRoleBinding([Subject(ServiceAccountKind, "test-sa")], "role1");
    var a2 := ClusterRoleBinding([Subject(ServiceAccountKind, "test-sa")], "role2");
    BoundRolesAppend([u1], [u2], "test-sa");
    assert [u1] + [u2] == [u1, u2];
    BoundRolesAppend([a1], [a2], "test-sa");
    assert [a1] + [a2] == [a1, a2];
    assert [u1][..0] == [] && [u2][..0] == [] && [a1][..0] == [] && [a2][..0] == [];
    SingleMatch(Subject(UserKind, "test-sa"), "role1", "test-sa");
    SingleMatch(Subject(UserKind, "test-sa"), "role2", "test-sa");
  }

  /** A binding whose one subject matches contributes exactly its role. */
  lemma SingleMatch(sub: Subject, role: string, name: string)
    requires Matches(sub, name)
    ensures BoundRoles([ClusterRoleBinding([sub], role)], name) == [role]
  {
    var b := ClusterRoleBinding([sub], role);
    assert [sub][..0] == [];
    assert SubjectRoles([sub], role, name) == SubjectRoles([], role, name) + [role];
    assert [b][..0] == [];
    assert BoundRoles([b], name) == BoundRoles([], name) + SubjectRoles([sub], role, name);
  }

  /** A subject of another kind, here a Group, contributes nothing even when its name matches. */
  lemma OtherKindIgnored()
    ensures BoundRoles([ClusterRoleBinding([Subject("Group", "test-sa")], "role1")], "test-sa") == []
  {
    var grp := [ClusterRoleBinding([Subject("Group", "test-sa")], "role1")];
    assert grp[..0] == [];
  }

  /** A binding naming the same user twice yields its role twice: the result is not de-duplicated. */
  lemma DuplicatesKept(name: string, role: string)
    ensures BoundRoles([ClusterRoleBinding([Subject(UserKind, name), Subject(ServiceAccountKind, name)], role)], name)
            == [role, role]
  {
    var subs := [Subject(UserKind, name), Subject(ServiceAccountKind, name)];
    assert subs[..1] == [Subject(UserKind, name)];
    assert subs[..1][..0] == [];
    assert SubjectRoles(subs[..1], role, name) == [role];
    assert SubjectRoles(subs, role, name) == [role, role];
    var bs := [ClusterRoleBinding(subs, role)];
    assert bs[..0] == [];
  }
}
