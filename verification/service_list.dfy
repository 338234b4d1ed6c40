/** The `services` field of the contact form: an ordered list of labels, edited by
    `handleServiceToggle` (components/ui/ContactModal.tsx). */
module ServiceList {
  import Lists

  /** No service occurs twice. */
  predicate NoDuplicates(s: seq<string>) {
    forall i, j :: 0 <= i < j < |s| ==> s[i] != s[j]
  }

  /** The callback `handleServiceToggle` filters with: `(s) => s !== service`. */
  function Other(service: string): string -> bool {
    x => x != service
  }

  /** `s.filter((x) => x !== service)`: every occurrence of `service` dropped, each other
      label kept as often as it occurs and in its order. */
  function Remove(s: seq<string>, service: string): (r: seq<string>)
    ensures service !in r
    ensures forall x {:trigger multiset(r)[x]} :: x != service ==> multiset(r)[x] == multiset(s)[x]
    ensures forall x {:trigger x in r} :: x != service ==> (x in r <==> x in s)
    ensures Lists.IsSubsequence(r, s)
    ensures |r| <= |s|
    ensures service !in s ==> r == s
  {
    Lists.FilterCounts(s, Other(service));
    Lists.FilterIsSubsequence(s, Other(service));
    FilterAbsent(s, service);
    Lists.Filter(s, Other(service))
  }

  /** Filtering out a label that is not listed keeps the list as it is. */
  lemma FilterAbsent(s: seq<string>, service: string)
    ensures service !in s ==> Lists.Filter(s, Other(service)) == s
  {
    if service !in s {
      Lists.FilterKeepsAll(s, Other(service));
    }
  }

  /** `handleServiceToggle(service)`: drop the label when it is listed, append it otherwise. */
  function Toggle(s: seq<string>, service: string): seq<string> {
    if service in s then Remove(s, service) else s + [service]
  }

  /** Filtering a label out of a concatenation filters each part. */
  lemma RemoveAppend(a: seq<string>, b: seq<string>, service: string)
    ensures Remove(a + b, service) == Remove(a, service) + Remove(b, service)
  {
    Lists.FilterAppend(a, b, Other(service));
  }

  lemma {:induction false} RemoveKeepsNoDuplicates(s: seq<string>, service: string)
    requires NoDuplicates(s)
    ensures NoDuplicates(Remove(s, service))
    decreases |s|
  {
    if |s| > 0 {
      RemoveKeepsNoDuplicates(s[1..], service);
      var rest := Remove(s[1..], service);
      if s[0] != service {
        assert s[0] !in s[1..];
        assert s[0] !in rest;
        var r := [s[0]] + rest;
        forall i, j | 0 <= i < j < |r| ensures r[i] != r[j] {
          if i == 0 {
            assert r[j] == rest[j - 1];
          } else {
            assert r[i] == rest[i - 1] && r[j] == rest[j - 1];
          }
        }
      }
    }
  }

  /** Toggling flips the toggled service's membership; every other label keeps its own. */
  lemma ToggleMembership(s: seq<string>, service: string)
    ensures service in Toggle(s, service) <==> service !in s
    ensures forall x {:trigger x in Toggle(s, service)} :: x != service ==> (x in Toggle(s, service) <==> x in s)
  {
  }

  /** The labels other than the toggled one keep their relative order: with the toggled
      service filtered out, the list before and after are the same. */
  lemma ToggleKeepsOthersInOrder(s: seq<string>, service: string)
    ensures Remove(Toggle(s, service), service) == Remove(s, service)
  {
    if service !in s {
      RemoveAppend(s, [service], service);
      assert Remove([service], service) == [];
    }
  }

  /** Toggling never introduces a duplicate: a service is appended only when absent. */
  lemma ToggleKeepsNoDuplicates(s: seq<string>, service: string)
    requires NoDuplicates(s)
    ensures NoDuplicates(Toggle(s, service))
  {
    if service in s {
      RemoveKeepsNoDuplicates(s, service);
    } else {
      var r := s + [service];
      forall i, j | 0 <= i < j < |r| ensures r[i] != r[j] {
        if j == |s| {
          assert r[i] == s[i];
        } else {
          assert r[i] == s[i] && r[j] == s[j];
        }
      }
    }
  }

  /** Toggling an absent service twice restores the list exactly. */
  lemma ToggleTwiceAbsent(s: seq<string>, service: string)
    requires service !in s
    ensures Toggle(Toggle(s, service), service) == s
  {
    RemoveAppend(s, [service], service);
    assert Remove([service], service) == [];
  }

  /** Toggling a listed service twice restores the same labels, with that service moved
      to the end. */
  lemma ToggleTwicePresent(s: seq<string>, service: string)
    requires service in s
    ensures Toggle(Toggle(s, service), service) == Remove(s, service) + [service]
    ensures forall x {:trigger x in Toggle(Toggle(s, service), service)} :: x in Toggle(Toggle(s, service), service) <==> x in s
  {
  }

  /** Without duplicates the double toggle of a listed service is a permutation. */
  lemma ToggleTwicePresentPermutes(s: seq<string>, service: string)
    requires service in s && NoDuplicates(s)
    ensures multiset(Toggle(Toggle(s, service), service)) == multiset(s)
  {
    RemoveOnceMultiset(s, service);
  }

  lemma {:induction false} RemoveOnceMultiset(s: seq<string>, service: string)
    requires NoDuplicates(s) && service in s
    ensures multiset(Remove(s, service)) + multiset{service} == multiset(s)
    decreases |s|
  {
    assert s == [s[0]] + s[1..];
    if s[0] == service {
      assert service !in s[1..] by {
        forall k | 0 <= k < |s[1..]| ensures s[1..][k] != service {
          assert s[1..][k] == s[k + 1];
        }
      }
    } else {
      assert NoDuplicates(s[1..]) by {
        forall i, j | 0 <= i < j < |s[1..]| ensures s[1..][i] != s[1..][j] {
          assert s[1..][i] == s[i + 1] && s[1..][j] == s[j + 1];
        }
      }
      RemoveOnceMultiset(s[1..], service);
    }
  }
}
