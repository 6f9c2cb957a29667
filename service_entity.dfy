/**
  The attribute holder `App\Entity\Service`: a name, a description, the
  repository it belongs to, and the collection of its field descriptions. The
  collection is one side of a one-to-many link whose other side is each field's
  back-pointer to its service; adding and removing a field keep the two sides
  in step.
 */
module AppEntity {
  import opened Php

  /** `App\Entity\Repository`, here only as the target of a service's reference. */
  class Repository {
    constructor ()
    {
    }
  }

  /** `App\Entity\ServiceField`, reduced to the owning side of the link: its service. */
  class ServiceField {
    var service: Service?

    constructor ()
      ensures service == null
    {
      service := null;
    }

    function GetService(): Service?
      reads this
    {
      service
    }

    method SetService(service: Service?)
      modifies this
      ensures this.service == service
    {
      this.service := service;
    }
  }

  // ---------------------------------------------------------------------------
  // The collection operations of Doctrine's ArrayCollection used here

  predicate NoDuplicates<T(==)>(s: seq<T>)
  {
    forall i, j :: 0 <= i < j < |s| ==> s[i] != s[j]
  }

  /** Position of the first occurrence of `x` (what `array_search` finds). */
  function IndexOf<T(==)>(s: seq<T>, x: T): (i: nat)
    requires x in s
    ensures i < |s| && s[i] == x && x !in s[..i]
    decreases |s|
  {
    if s[0] == x then 0 else 1 + IndexOf(s[1..], x)
  }

  /** `removeElement($x)`: drops the first occurrence of `x`, if there is one. */
  function RemoveElement<T(==)>(s: seq<T>, x: T): (r: seq<T>)
    ensures x !in s ==> r == s
    ensures x in s ==> |r| == |s| - 1
    decreases |s|
  {
    if s == [] then []
    else if s[0] == x then s[1..]
    else [s[0]] + RemoveElement(s[1..], x)
  }

  /** Removal cuts the collection at the first occurrence and keeps both sides. */
  lemma {:induction false} RemoveElementFirstOccurrence<T>(s: seq<T>, x: T)
    requires x in s
    ensures RemoveElement(s, x) == s[..IndexOf(s, x)] + s[IndexOf(s, x) + 1..]
    decreases |s|
  {
    if s[0] != x {
      assert x in s[1..] by {
        var k :| 0 <= k < |s| && s[k] == x;
        assert s[1..][k - 1] == x;
      }
      RemoveElementFirstOccurrence(s[1..], x);
      var i := IndexOf(s[1..], x);
      assert IndexOf(s, x) == i + 1;
      assert s[1..][..i] == s[1..i + 1] && s[1..][i + 1..] == s[i + 2..];
      assert [s[0]] + s[1..i + 1] == s[..i + 1];
    }
  }

  /** Every element other than `x`, in order: a reference definition of removal. */
  function Without<T(==)>(s: seq<T>, x: T): (r: seq<T>)
    decreases |s|
  {
    if s == [] then []
    else if s[0] == x then Without(s[1..], x)
    else [s[0]] + Without(s[1..], x)
  }

  lemma {:induction false} WithoutAbsent<T>(s: seq<T>, x: T)
    requires x !in s
    ensures Without(s, x) == s
    decreases |s|
  {
    if s != [] {
      WithoutAbsent(s[1..], x);
    }
  }

  /**
    On a collection without duplicates, removing an element leaves every other
    element, in the same order, and the element is gone; no duplicate appears.
   */
  lemma {:induction false} RemoveElementWithoutDuplicates<T>(s: seq<T>, x: T)
    requires NoDuplicates(s)
    ensures RemoveElement(s, x) == Without(s, x)
    ensures x !in RemoveElement(s, x)
    ensures NoDuplicates(RemoveElement(s, x))
    ensures forall y :: y != x ==> (y in RemoveElement(s, x) <==> y in s)
    decreases |s|
  {
    if s != [] {
      assert NoDuplicates(s[1..]) by {
        forall i, j | 0 <= i < j < |s[1..]|
          ensures s[1..][i] != s[1..][j]
        {
          assert s[1..][i] == s[i + 1] && s[1..][j] == s[j + 1];
        }
      }
      if s[0] == x {
        assert x !in s[1..] by {
          forall k | 0 <= k < |s[1..]|
            ensures s[1..][k] != x
          {
            assert s[1..][k] == s[k + 1];
          }
        }
        WithoutAbsent(s[1..], x);
      } else {
        RemoveElementWithoutDuplicates(s[1..], x);
        var r := RemoveElement(s, x);
        assert r == [s[0]] + RemoveElement(s[1..], x);
        assert s[0] !in s[1..] by {
          forall k | 0 <= k < |s[1..]|
            ensures s[1..][k] != s[0]
          {
            assert s[1..][k] == s[k + 1];
          }
        }
        forall i, j | 0 <= i < j < |r|
          ensures r[i] != r[j]
        {
          if i == 0 {
            assert r[j] in RemoveElement(s[1..], x);
          }
        }
      }
    }
  }

  /** Appending an element that is absent keeps the collection duplicate-free, with one occurrence of it. */
  lemma AppendAbsent<T>(s: seq<T>, x: T)
    requires NoDuplicates(s) && x !in s
    ensures NoDuplicates(s + [x])
    ensures multiset(s + [x])[x] == 1
  {
  }

  /** Without duplicates, an element present occurs exactly once. */
  lemma {:induction false} OccursOnce<T>(s: seq<T>, x: T)
    requires NoDuplicates(s) && x in s
    ensures multiset(s)[x] == 1
    decreases |s|
  {
    var i := IndexOf(s, x);
    assert s == s[..i] + [x] + s[i + 1..];
    assert x !in s[i + 1..] by {
      forall k | i + 1 <= k < |s|
        ensures s[k] != x
      {
        assert s[i] == x;
      }
    }
    assert multiset(s[..i])[x] == 0;
    assert multiset(s[i + 1..])[x] == 0;
    assert multiset(s) == multiset(s[..i]) + multiset{x} + multiset(s[i + 1..]);
  }

  // ---------------------------------------------------------------------------
  // The service

  class Service {
    var name: Option<string>
    var description: Option<string>
    var repository: Repository?
    var serviceFields: seq<ServiceField>

    /** The collection holds each field at most once. */
    ghost predicate Valid()
      reads this
    {
      NoDuplicates(serviceFields)
    }

    /** A new service has an empty collection of fields (and no name, description or repository yet). */
    constructor ()
      ensures Valid()
      ensures serviceFields == []
      ensures name == None && description == None && repository == null
    {
      serviceFields := [];
      name, description, repository := None, None, null;
    }

    function GetName(): Option<string>
      reads this
    {
      name
    }

    method SetName(name: string)
      modifies this
      ensures GetName() == Some(name)
      ensures description == old(description) && repository == old(repository)
      ensures serviceFields == old(serviceFields)
    {
      this.name := Some(name);
    }

    function GetDescription(): Option<string>
      reads this
    {
      description
    }

    method SetDescription(description: Option<string>)
      modifies this
      ensures GetDescription() == description
      ensures name == old(name) && repository == old(repository)
      ensures serviceFields == old(serviceFields)
    {
      this.description := description;
    }

    function GetRepository(): Repository?
      reads this
    {
      repository
    }

    method SetRepository(repository: Repository?)
      modifies this
      ensures GetRepository() == repository
      ensures name == old(name) && description == old(description)
      ensures serviceFields == old(serviceFields)
    {
      this.repository := repository;
    }

    function GetServiceFields(): seq<ServiceField>
      reads this
    {
      serviceFields
    }

    /**
      `addServiceField`: a field not yet in the collection is appended and
      pointed back at this service; a field already there changes nothing.
     */
    method AddServiceField(serviceField: ServiceField)
      modifies this, serviceField
      ensures old(serviceField in serviceFields) ==>
        serviceFields == old(serviceFields) && serviceField.service == old(serviceField.service)
      ensures old(serviceField !in serviceFields) ==>
        GetServiceFields() == old(GetServiceFields()) + [serviceField] && serviceField.GetService() == this
      ensures old(Valid()) ==> Valid() && multiset(serviceFields)[serviceField] == 1
      ensures name == old(name) && description == old(description) && repository == old(repository)
    {
      if serviceField !in serviceFields {
        if Valid() {
          AppendAbsent(serviceFields, serviceField);
        }
        serviceFields := serviceFields + [serviceField];
        serviceField.SetService(this);
      } else if Valid() {
        OccursOnce(serviceFields, serviceField);
      }
    }

    /**
      `removeServiceField`: a field in the collection is taken out (every other
      field stays, in order) and its back-pointer is cleared only if it still
      points at this service; a field not in the collection changes nothing.
     */
    method RemoveServiceField(serviceField: ServiceField)
      modifies this, serviceField
      ensures GetServiceFields() == RemoveElement(old(GetServiceFields()), serviceField)
      ensures old(serviceField !in serviceFields) ==>
        serviceFields == old(serviceFields) && serviceField.service == old(serviceField.service)
      ensures serviceField.service ==
        if old(serviceField in serviceFields) && old(serviceField.service) == this then null
        else old(serviceField.service)
      ensures old(Valid()) ==> Valid() && serviceField !in serviceFields
      ensures old(Valid()) ==> serviceFields == Without(old(serviceFields), serviceField)
      ensures name == old(name) && description == old(description) && repository == old(repository)
    {
      if serviceField in serviceFields {
        if Valid() {
          RemoveElementWithoutDuplicates(serviceFields, serviceField);
        }
        serviceFields := RemoveElement(serviceFields, serviceField);
        if serviceField.GetService() == this {
          serviceField.SetService(null);
        }
      } else {
        WithoutAbsent(serviceFields, serviceField);
      }
    }
  }
}
