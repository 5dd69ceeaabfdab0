/**
 LeadsService: the create / list / read / update / delete operations over the `leads` table.

 The table is a map from id to row, held in the service object and changed in place. The
 database generates the id of a new row; here it is a parameter that must not be in use.
 Errors the service throws are results: BadRequest for the duplicate email of a create,
 NotFound for an id that is not stored.
 */
module Leads {
  import opened LeadEntity

  datatype Error = BadRequest(message: string) | NotFound(message: string)

  datatype Result<T> = Ok(value: T) | Err(error: Error)

  /** The body `remove` answers with. */
  datatype Deleted = Deleted(message: string)

  const LeadAlreadyExists := "Lead already exists"
  const LeadDoesNotExist := "Lead does not exist"
  const LeadDeletedSuccessfully := "Lead deleted successfully"

  type Table = map<string, Lead>

  /** Every row is stored under its own id. */
  ghost predicate WellKeyed(t: Table) {
    forall id :: id in t ==> t[id].id == id
  }

  /** Some row has this email. */
  ghost predicate EmailTaken(t: Table, email: string) {
    exists id :: id in t && t[id].email == email
  }

  /** No two rows share an email. */
  ghost predicate EmailsUnique(t: Table) {
    forall a, b :: a in t && b in t && t[a].email == t[b].email ==> a == b
  }

  /** Inserting a row with an unused email under an unused id keeps emails unique. */
  lemma InsertKeepsEmailsUnique(t: Table, id: string, l: Lead)
    requires EmailsUnique(t) && id !in t && !EmailTaken(t, l.email)
    ensures EmailsUnique(t[id := l])
  {
  }

  /** Deleting a row keeps emails unique. */
  lemma RemoveKeepsEmailsUnique(t: Table, id: string)
    requires EmailsUnique(t)
    ensures EmailsUnique(t - {id})
  {
  }

  /** Deleting the row a create just inserted gives back the table as it was. */
  lemma RemoveUndoesInsert(t: Table, id: string, l: Lead)
    requires id !in t
    ensures t[id := l] - {id} == t
  {
  }

  /** In a well-keyed table distinct ids hold distinct rows, so there are as many rows as ids. */
  lemma {:induction false} RowCount(t: Table)
    requires WellKeyed(t)
    ensures |t.Values| == |t|
  {
    if t != map[] {
      var k :| k in t;
      var rest := t - {k};
      assert WellKeyed(rest);
      RowCount(rest);
      assert t.Values == rest.Values + {t[k]} by {
        forall v | v in t.Values ensures v in rest.Values + {t[k]} {
          var j :| j in t && t[j] == v;
          if j != k {
            assert rest[j] == v;
          }
        }
        forall v | v in rest.Values ensures v in t.Values {
          var j :| j in rest && rest[j] == v;
          assert t[j] == v;
        }
      }
      assert t[k] !in rest.Values by {
        forall j | j in rest
          ensures rest[j] != t[k]
        {
          assert rest[j].id == j != k == t[k].id;
        }
      }
      assert |t| == |rest| + 1 by {
        assert t.Keys == rest.Keys + {k};
      }
    }
  }

  /** `update` does not check the new email against the other rows: a table with unique
      emails can end up with two rows that share one. */
  lemma UpdateCanDuplicateEmail()
    ensures var a := Lead("a", "Alice", "alice@example.com", "(11) 9 9999-9999", "resident", None);
            var b := Lead("b", "Bruno", "bruno@example.com", "(11) 9 8888-8888", "tourist", None);
            var t := map["a" := a, "b" := b];
            var p := EmptyPatch.(email := Set("alice@example.com"));
            WellKeyed(t) && EmailsUnique(t) && !EmailsUnique(t["b" := ApplyPatch(t["b"], p)])
  {
    var a := Lead("a", "Alice", "alice@example.com", "(11) 9 9999-9999", "resident", None);
    var b := Lead("b", "Bruno", "bruno@example.com", "(11) 9 8888-8888", "tourist", None);
    var t := map["a" := a, "b" := b];
    var p := EmptyPatch.(email := Set("alice@example.com"));
    var t' := t["b" := ApplyPatch(t["b"], p)];
    assert t'["a"].email == t'["b"].email;
  }

  class LeadsService {
    /** The rows of the `leads` table, by id. */
    var leads: Table

    ghost predicate Valid()
      reads this
    {
      WellKeyed(leads)
    }

    constructor ()
      ensures Valid() && leads == map[]
    {
      leads := map[];
    }

    /** `findFirst({ where: { email } })`: some row with that email, if there is one. */
    method FindFirstByEmail(email: string) returns (r: Option<Lead>)
      ensures r.Some? <==> EmailTaken(leads, email)
      ensures r.Some? ==> r.value in leads.Values && r.value.email == email
    {
      if exists id :: id in leads && leads[id].email == email {
        var id :| id in leads && leads[id].email == email;
        r := Some(leads[id]);
      } else {
        r := None;
      }
    }

    /** Refuses an email that is already stored; otherwise inserts one row under the new id
        holding exactly the supplied fields. */
    method Create(data: LeadData, freshId: string) returns (r: Result<Lead>)
      requires Valid()
      requires freshId !in leads
      modifies this
      ensures Valid()
      ensures EmailTaken(old(leads), data.email) ==>
                r == Err(BadRequest(LeadAlreadyExists)) && leads == old(leads)
      ensures !EmailTaken(old(leads), data.email) ==>
                r == Ok(NewLead(freshId, data)) && leads == old(leads)[freshId := r.value] &&
                |leads| == |old(leads)| + 1
      ensures EmailsUnique(old(leads)) ==> EmailsUnique(leads)
    {
      var lead := FindFirstByEmail(data.email);
      if lead.Some? {
        r := Err(BadRequest(LeadAlreadyExists));
        return;
      }
      var created := NewLead(freshId, data);
      if EmailsUnique(leads) {
        InsertKeepsEmailsUnique(leads, freshId, created);
      }
      leads := leads[freshId := created];
      r := Ok(created);
    }

    /** `findMany()`: every stored row, each once. */
    method FindAll() returns (r: set<Lead>)
      requires Valid()
      ensures forall id :: id in leads ==> leads[id] in r
      ensures forall l :: l in r ==> l.id in leads && leads[l.id] == l
      ensures |r| == |leads|
    {
      r := leads.Values;
      RowCount(leads);
    }

    /** `findFirst({ where: { id } })`: the row with that id, or NotFound. */
    method FindOne(id: string) returns (r: Result<Lead>)
      requires Valid()
      ensures id in leads ==> r == Ok(leads[id])
      ensures id !in leads ==> r == Err(NotFound(LeadDoesNotExist))
    {
      if exists k :: k in leads && leads[k].id == id {
        var k :| k in leads && leads[k].id == id;
        r := Ok(leads[k]);
      } else {
        r := Err(NotFound(LeadDoesNotExist));
      }
    }

    /** Checks the id exists, then overwrites the fields given in the patch. */
    method Update(id: string, patch: LeadPatch) returns (r: Result<Lead>)
      requires Valid()
      modifies this
      ensures Valid()
      ensures id !in old(leads) ==>
                r == Err(NotFound(LeadDoesNotExist)) && leads == old(leads)
      ensures id in old(leads) ==>
                r == Ok(ApplyPatch(old(leads)[id], patch)) &&
                leads == old(leads)[id := r.value]
    {
      var found := FindOne(id);
      if found.Err? {
        r := Err(found.error);
        return;
      }
      var updated := ApplyPatch(found.value, patch);
      leads := leads[id := updated];
      r := Ok(updated);
    }

    /** Checks the id exists, then deletes that row and confirms. */
    method Remove(id: string) returns (r: Result<Deleted>)
      requires Valid()
      modifies this
      ensures Valid()
      ensures id !in old(leads) ==>
                r == Err(NotFound(LeadDoesNotExist)) && leads == old(leads)
      ensures id in old(leads) ==>
                r == Ok(Deleted(LeadDeletedSuccessfully)) && leads == old(leads) - {id} &&
                |leads| == |old(leads)| - 1
      ensures EmailsUnique(old(leads)) ==> EmailsUnique(leads)
    {
      var found := FindOne(id);
      if found.Err? {
        r := Err(found.error);
        return;
      }
      if EmailsUnique(leads) {
        RemoveKeepsEmailsUnique(leads, id);
      }
      leads := leads - {id};
      r := Ok(Deleted(LeadDeletedSuccessfully));
    }
  }

  /** The end-to-end scenario on an empty table: create a lead, list it, refuse a second lead
      with the same email, read it back, rename it, delete it; reading it or deleting it
      again then fails with NotFound. */
  method EndToEnd(id: string, otherId: string)
    returns (created: Result<Lead>, listed: set<Lead>, duplicate: Result<Lead>,
             fetched: Result<Lead>, updated: Result<Lead>, deleted: Result<Deleted>,
             refetched: Result<Lead>, deletedAgain: Result<Deleted>)
    requires id != otherId
    ensures created == Ok(Lead(id, "John Doe", "john@example.com", "(85) 9 9999-9999",
                               "resident", None))
    ensures listed == {created.value}
    ensures duplicate == Err(BadRequest("Lead already exists"))
    ensures fetched == created
    ensures updated == Ok(created.value.(name := "John Updated"))
    ensures deleted == Ok(Deleted("Lead deleted successfully"))
    ensures refetched == Err(NotFound("Lead does not exist"))
    ensures deletedAgain == Err(NotFound("Lead does not exist"))
  {
    var service := new LeadsService();
    var john := LeadData("John Doe", "john@example.com", "(85) 9 9999-9999", "resident", None);
    created := service.Create(john, id);
    listed := service.FindAll();
    assert created.value in listed;
    duplicate := service.Create(john.(name := "John Again"), otherId);
    fetched := service.FindOne(id);
    updated := service.Update(id, EmptyPatch.(name := Set("John Updated")));
    deleted := service.Remove(id);
    refetched := service.FindOne(id);
    deletedAgain := service.Remove(id);
  }
}
