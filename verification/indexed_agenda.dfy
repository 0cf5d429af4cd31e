/** The indexed contact book of src/lib.rs (`Agenda`): a name index, a phone
    index and the insertion-ordered list of records, updated together. */
module IndexedAgenda {
  import opened Records
  import Seqs

  /** `contatos_por_nome`, `contatos_por_telefone` and `lista_contatos`. */
  datatype Agenda = Agenda(byName: map<string, Contact>, byPhone: map<string, Contact>, list: seq<Contact>)

  /** What a removal returns: the agenda afterwards and the removed record, if any. */
  datatype Removal = Removal(agenda: Agenda, removed: Option<Contact>)

  /** The three structures describe the same records: every index entry is
      keyed by its record's own name (phone) and is listed, every listed
      record is what both indexes hold under its name and phone, and no
      record is listed twice. Adding only fresh names and phones keeps it. */
  ghost predicate Consistent(a: Agenda)
  {
    && (forall n :: n in a.byName ==> a.byName[n].name == n && a.byName[n] in a.list)
    && (forall t :: t in a.byPhone ==> a.byPhone[t].phone == t && a.byPhone[t] in a.list)
    && (forall c :: c in a.list ==>
          && c.name in a.byName && a.byName[c.name] == c
          && c.phone in a.byPhone && a.byPhone[c.phone] == c)
    && (forall c :: multiset(a.list)[c] <= 1)
  }

  /** `buscar_por_nome`: exact-match lookup in the name index. */
  function FindByName(a: Agenda, n: string): (r: Option<Contact>)
    ensures r.Some? <==> n in a.byName
    ensures r.Some? ==> r.value == a.byName[n]
    ensures Consistent(a) ==> (r.Some? <==> exists c :: c in a.list && c.name == n)
    ensures Consistent(a) && r.Some? ==> r.value.name == n && r.value in a.list
  {
    if n in a.byName then Some(a.byName[n]) else None
  }

  /** `buscar_por_telefone`: exact-match lookup in the phone index. */
  function FindByPhone(a: Agenda, t: string): (r: Option<Contact>)
    ensures r.Some? <==> t in a.byPhone
    ensures r.Some? ==> r.value == a.byPhone[t]
    ensures Consistent(a) ==> (r.Some? <==> exists c :: c in a.list && c.phone == t)
    ensures Consistent(a) && r.Some? ==> r.value.phone == t && r.value in a.list
  {
    if t in a.byPhone then Some(a.byPhone[t]) else None
  }

  /** `mostrar_todos_nomes`: every listed record, in insertion order. Under
      the consistency invariant these are exactly the indexed records. */
  function ListAll(a: Agenda): (r: seq<Contact>)
    ensures |r| == |a.list| && forall i :: 0 <= i < |r| ==> r[i] == a.list[i]
    ensures Consistent(a) ==> forall c :: c in r <==> FindByName(a, c.name) == Some(c)
    ensures Consistent(a) ==> forall c :: c in r <==> FindByPhone(a, c.phone) == Some(c)
  {
    a.list
  }

  /** `novo`: nothing indexed, nothing listed. */
  function New(): (a: Agenda)
    ensures forall n :: FindByName(a, n) == None
    ensures forall t :: FindByPhone(a, t) == None
    ensures ListAll(a) == []
    ensures Consistent(a)
  {
    Agenda(map[], map[], [])
  }

  /** `adicionar_contato`: both indexes now map the record's keys to it
      (overwriting what they held there) and the record is appended. */
  function Add(a: Agenda, c: Contact): (r: Agenda)
    ensures FindByName(r, c.name) == Some(c) && FindByPhone(r, c.phone) == Some(c)
    ensures forall n :: n != c.name ==> FindByName(r, n) == FindByName(a, n)
    ensures forall t :: t != c.phone ==> FindByPhone(r, t) == FindByPhone(a, t)
    ensures |r.list| == |a.list| + 1 && r.list[..|a.list|] == a.list && r.list[|a.list|] == c
  {
    Agenda(a.byName[c.name := c], a.byPhone[c.phone := c], a.list + [c])
  }

  /** `remover_por_nome`: if the name is indexed, drop it and the removed
      record's phone from the indexes and every listed record with that
      name; otherwise change nothing. */
  function RemoveByName(a: Agenda, n: string): (r: Removal)
    ensures FindByName(a, n).None? ==> r.removed.None? && r.agenda == a
    ensures FindByName(a, n).Some? ==>
      var gone := FindByName(a, n).value;
      && r.removed == Some(gone)
      && FindByName(r.agenda, n).None?
      && (forall m :: m != n ==> FindByName(r.agenda, m) == FindByName(a, m))
      && FindByPhone(r.agenda, gone.phone).None?
      && (forall t :: t != gone.phone ==> FindByPhone(r.agenda, t) == FindByPhone(a, t))
      && (forall c :: c in r.agenda.list <==> c in a.list && c.name != n)
      && (forall c: Contact :: c.name != n ==> multiset(r.agenda.list)[c] == multiset(a.list)[c])
      && Seqs.Subsequence(r.agenda.list, a.list)
  {
    if n in a.byName then
      var gone := a.byName[n];
      Seqs.FilterIsSubsequence(a.list, NameIsNot(n));
      Removal(Agenda(a.byName - {n}, a.byPhone - {gone.phone}, Seqs.Filter(a.list, NameIsNot(n))), Some(gone))
    else
      Removal(a, None)
  }

  /** `remover_por_telefone`: the mirror image of `RemoveByName`, keyed by phone. */
  function RemoveByPhone(a: Agenda, t: string): (r: Removal)
    ensures FindByPhone(a, t).None? ==> r.removed.None? && r.agenda == a
    ensures FindByPhone(a, t).Some? ==>
      var gone := FindByPhone(a, t).value;
      && r.removed == Some(gone)
      && FindByPhone(r.agenda, t).None?
      && (forall u :: u != t ==> FindByPhone(r.agenda, u) == FindByPhone(a, u))
      && FindByName(r.agenda, gone.name).None?
      && (forall m :: m != gone.name ==> FindByName(r.agenda, m) == FindByName(a, m))
      && (forall c :: c in r.agenda.list <==> c in a.list && c.phone != t)
      && (forall c: Contact :: c.phone != t ==> multiset(r.agenda.list)[c] == multiset(a.list)[c])
      && Seqs.Subsequence(r.agenda.list, a.list)
  {
    if t in a.byPhone then
      var gone := a.byPhone[t];
      Seqs.FilterIsSubsequence(a.list, PhoneIsNot(t));
      Removal(Agenda(a.byName - {gone.name}, a.byPhone - {t}, Seqs.Filter(a.list, PhoneIsNot(t))), Some(gone))
    else
      Removal(a, None)
  }

  // ---------------------------------------------------------------------------
  // The consistency invariant

  /** Under the invariant the list, the name index and the phone index hold
      the same set of records. */
  lemma ConsistentSameRecords(a: Agenda)
    requires Consistent(a)
    ensures forall c :: c in a.list <==> c in a.byName.Values
    ensures forall c :: c in a.list <==> c in a.byPhone.Values
  {
    forall c | c in a.list
      ensures c in a.byName.Values && c in a.byPhone.Values
    {
      assert a.byName[c.name] == c && a.byPhone[c.phone] == c;
    }
  }

  /** Adding a record whose name and phone are both fresh keeps the invariant. */
  lemma AddPreservesConsistency(a: Agenda, c: Contact)
    requires Consistent(a)
    requires FindByName(a, c.name).None? && FindByPhone(a, c.phone).None?
    ensures Consistent(Add(a, c))
  {
    var r := Add(a, c);
    assert c !in a.list;
    forall x
      ensures multiset(r.list)[x] <= 1
    {
      assert multiset(r.list) == multiset(a.list) + multiset{c};
    }
  }

  /** Removing by name keeps the invariant. */
  lemma RemoveByNamePreservesConsistency(a: Agenda, n: string)
    requires Consistent(a)
    ensures Consistent(RemoveByName(a, n).agenda)
  {
    if n in a.byName {
      var gone := a.byName[n];
      var r := RemoveByName(a, n).agenda;
      forall c | c in r.list
        ensures c.phone != gone.phone
      {
        assert a.byPhone[c.phone] == c && a.byPhone[gone.phone] == gone;
      }
      forall t | t in r.byPhone
        ensures r.byPhone[t].name != n
      {
        assert a.byName[a.byPhone[t].name] == a.byPhone[t];
      }
    }
  }

  /** Removing by phone keeps the invariant. */
  lemma RemoveByPhonePreservesConsistency(a: Agenda, t: string)
    requires Consistent(a)
    ensures Consistent(RemoveByPhone(a, t).agenda)
  {
    if t in a.byPhone {
      var gone := a.byPhone[t];
      var r := RemoveByPhone(a, t).agenda;
      forall c | c in r.list
        ensures c.name != gone.name
      {
        assert a.byName[c.name] == c && a.byName[gone.name] == gone;
      }
      forall n | n in r.byName
        ensures r.byName[n].phone != t
      {
        assert a.byPhone[a.byName[n].phone] == a.byName[n];
      }
    }
  }

  /** Under the invariant, removing a record by its name and removing it by
      its phone have the same effect and return the same record. */
  lemma RemoveByNameMatchesRemoveByPhone(a: Agenda, n: string)
    requires Consistent(a) && FindByName(a, n).Some?
    ensures RemoveByName(a, n) == RemoveByPhone(a, FindByName(a, n).value.phone)
  {
    var gone := a.byName[n];
    forall i | 0 <= i < |a.list|
      ensures NameIsNot(n)(a.list[i]) == PhoneIsNot(gone.phone)(a.list[i])
    {
      var c := a.list[i];
      assert a.byName[c.name] == c && a.byPhone[c.phone] == c;
    }
    Seqs.FilterAgree(a.list, NameIsNot(n), PhoneIsNot(gone.phone));
  }

  /** Adding a record with a fresh name and phone and then removing it by
      name gives back the original agenda and the record. */
  lemma AddThenRemoveByName(a: Agenda, c: Contact)
    requires Consistent(a)
    requires FindByName(a, c.name).None? && FindByPhone(a, c.phone).None?
    ensures RemoveByName(Add(a, c), c.name) == Removal(a, Some(c))
  {
    forall i | 0 <= i < |a.list|
      ensures NameIsNot(c.name)(a.list[i])
    {
      assert a.list[i] in a.list;
    }
    Seqs.FilterDropsLast(a.list, c, NameIsNot(c.name));
    UpdateThenRemove(a.byName, c.name, c);
    UpdateThenRemove(a.byPhone, c.phone, c);
  }

  /** The same round trip, removing by phone. */
  lemma AddThenRemoveByPhone(a: Agenda, c: Contact)
    requires Consistent(a)
    requires FindByName(a, c.name).None? && FindByPhone(a, c.phone).None?
    ensures RemoveByPhone(Add(a, c), c.phone) == Removal(a, Some(c))
  {
    forall i | 0 <= i < |a.list|
      ensures PhoneIsNot(c.phone)(a.list[i])
    {
      assert a.list[i] in a.list;
    }
    Seqs.FilterDropsLast(a.list, c, PhoneIsNot(c.phone));
    UpdateThenRemove(a.byName, c.name, c);
    UpdateThenRemove(a.byPhone, c.phone, c);
  }

  /** Adding a fresh key and removing it gives the map back. */
  lemma UpdateThenRemove(m: map<string, Contact>, k: string, v: Contact)
    requires k !in m
    ensures m[k := v] - {k} == m
  {
  }

  /** Adding a record whose name is taken by a record with another phone:
      the new record wins the name, the old one stays listed and still owns
      its phone, and the three structures no longer agree. */
  lemma AddNameCollision(a: Agenda, c: Contact)
    requires Consistent(a)
    requires FindByName(a, c.name).Some? && FindByName(a, c.name).value.phone != c.phone
    ensures var prev := FindByName(a, c.name).value;
            var r := Add(a, c);
            && FindByName(r, c.name) == Some(c)
            && prev in ListAll(r) && c in ListAll(r)
            && FindByPhone(r, prev.phone) == Some(prev)
            && !Consistent(r)
  {
    var prev := a.byName[c.name];
    var r := Add(a, c);
    assert prev in r.list && r.byName[prev.name] != prev;
  }

  /** A name collision followed by removal of that name leaves the older
      record's phone indexed although the record is no longer listed. */
  lemma CollisionThenRemoveLeavesStalePhone(a: Agenda, c: Contact)
    requires Consistent(a)
    requires FindByName(a, c.name).Some? && FindByName(a, c.name).value.phone != c.phone
    ensures var prev := FindByName(a, c.name).value;
            var r := RemoveByName(Add(a, c), c.name).agenda;
            && FindByPhone(r, prev.phone) == Some(prev)
            && prev !in ListAll(r)
  {
    var prev := a.byName[c.name];
    assert prev in a.list;
  }

  /** Whatever the agenda held before, adding a record and removing its name
      leaves neither its name nor its phone indexed. */
  lemma AddThenRemoveLookups(a: Agenda, c: Contact)
    ensures var r := RemoveByName(Add(a, c), c.name);
            && r.removed == Some(c)
            && FindByName(r.agenda, c.name).None?
            && FindByPhone(r.agenda, c.phone).None?
  {
  }

  /** The scenario of the integration test: add a record to a new agenda,
      find it by name and by phone, remove it by name, find nothing. */
  lemma IntegrationScenario()
    ensures var ana := Contact("Ana", "666666666", Some("ana@example.com"), Some("Rua B, 456"));
            var a := Add(New(), ana);
            var r := RemoveByName(a, "Ana");
            && FindByName(a, "Ana") == Some(ana)
            && FindByPhone(a, "666666666") == Some(ana)
            && r.removed == Some(ana)
            && FindByName(r.agenda, "Ana").None?
            && FindByPhone(r.agenda, "666666666").None?
            && ListAll(r.agenda) == []
  {
    var ana := Contact("Ana", "666666666", Some("ana@example.com"), Some("Rua B, 456"));
    AddThenRemoveByName(New(), ana);
  }
}
