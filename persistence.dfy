/**
 * The persistence service the feedback service talks to over HTTP,
 * replaced by an abstract store: the feedback table, the id counter the
 * store assigns from, the users and recipes it knows, and whether it
 * answers at all. Every client call that reaches an unreachable store, or
 * asks for a feedback id it does not hold, fails; the two existence checks
 * turn every failure into `false`.
 */
module Persistence {
  import opened Domain
  import Repository

  /** Why a client call threw: the store answered 404, or it did not answer. */
  datatype ClientError = RemoteNotFound | RemoteUnavailable

  /** The record with id `id`, if any. */
  function Lookup(s: seq<Feedback>, id: Id): (r: Option<Feedback>)
    ensures r.Some? ==> r.value in s && r.value.id == Some(id)
    ensures r.None? <==> forall i :: 0 <= i < |s| ==> s[i].id != Some(id)
  {
    if s == [] then None
    else if s[0].id == Some(id) then Some(s[0])
    else
      var r := Lookup(s[1..], id);
      assert forall i :: 1 <= i < |s| ==> s[i] == s[1..][i - 1];
      r
  }

  /**
   * `s` with the record of id `id` replaced by `f`, a record under the same
   * id: the id now finds `f` if it found anything, and every other id finds
   * what it found before.
   */
  function Replace(s: seq<Feedback>, id: Id, f: Feedback): (r: seq<Feedback>)
    requires f.id == Some(id)
    ensures |r| == |s|
    ensures forall i :: 0 <= i < |s| ==> r[i] == if s[i].id == Some(id) then f else s[i]
    ensures forall m :: Lookup(r, m) == if m == id then (if Lookup(s, id).Some? then Some(f) else None) else Lookup(s, m)
  {
    if s == [] then []
    else
      var rest := Replace(s[1..], id, f);
      var r := [if s[0].id == Some(id) then f else s[0]] + rest;
      assert r[1..] == rest;
      r
  }

  /** `s` without the record of id `id`. */
  function Remove(s: seq<Feedback>, id: Id): (r: seq<Feedback>)
    ensures forall g :: g in r <==> g in s && g.id != Some(id)
    ensures |r| <= |s|
  {
    if s == [] then []
    else
      var rest := Remove(s[1..], id);
      assert forall g :: g in s <==> g == s[0] || g in s[1..];
      if s[0].id == Some(id) then rest else [s[0]] + rest
  }

  /** Every record has an id, below `nextId`, and ids strictly increase along the table. */
  ghost predicate IdsAscending(s: seq<Feedback>, nextId: Id) {
    && (forall i :: 0 <= i < |s| ==> s[i].id.Some? && s[i].id.value < nextId)
    && (forall i, j :: 0 <= i < j < |s| ==> s[i].id.value < s[j].id.value)
  }

  /** Prepending a record whose id is below every id of an ascending table keeps it ascending. */
  lemma PrependKeepsIdsAscending(x: Feedback, s: seq<Feedback>, nextId: Id)
    requires IdsAscending(s, nextId)
    requires x.id.Some? && x.id.value < nextId
    requires forall g :: g in s ==> x.id.value < g.id.value
    ensures IdsAscending([x] + s, nextId)
  {
    var r := [x] + s;
    assert forall j :: 0 < j < |r| ==> r[j] == s[j - 1];
    assert forall j :: 0 < j < |r| ==> r[j] in s;
  }

  /** Removal keeps ids present, bounded and strictly ascending. */
  lemma {:induction false} RemoveKeepsIdsAscending(s: seq<Feedback>, id: Id, nextId: Id)
    requires IdsAscending(s, nextId)
    ensures IdsAscending(Remove(s, id), nextId)
  {
    if s != [] {
      var tail := s[1..];
      assert forall i :: 0 <= i < |tail| ==> tail[i] == s[i + 1];
      assert IdsAscending(tail, nextId);
      RemoveKeepsIdsAscending(tail, id, nextId);
      var rest := Remove(tail, id);
      if s[0].id != Some(id) {
        forall g | g in rest ensures s[0].id.value < g.id.value {
          var k :| 0 <= k < |tail| && tail[k] == g;
        }
        PrependKeepsIdsAscending(s[0], rest, nextId);
      }
    }
  }

  /** With unique ids, the record found under `id` is the only one carrying it. */
  lemma LookupFindsTheOnly(s: seq<Feedback>, nextId: Id, i: int, id: Id)
    requires IdsAscending(s, nextId)
    requires 0 <= i < |s| && s[i].id == Some(id)
    ensures Lookup(s, id) == Some(s[i])
  {
    var f := Lookup(s, id).value;
    var j :| 0 <= j < |s| && s[j] == f;
    assert i == j;
  }

  /** After a removal the key is gone and every other key reads as before. */
  lemma LookupAfterRemove(s: seq<Feedback>, nextId: Id, id: Id, m: Id)
    requires IdsAscending(s, nextId)
    ensures Lookup(Remove(s, id), m) == if m == id then None else Lookup(s, m)
  {
    var r := Remove(s, id);
    RemoveKeepsIdsAscending(s, id, nextId);
    if m != id {
      if Lookup(s, m).Some? {
        var h := Lookup(s, m).value;
        var j :| 0 <= j < |r| && r[j] == h;
        LookupFindsTheOnly(r, nextId, j, m);
      }
    }
  }

  /** After an append of a fresh id every old key reads as before and the new key reads the new record. */
  lemma LookupAfterAppend(s: seq<Feedback>, nextId: Id, f: Feedback, m: Id)
    requires IdsAscending(s, nextId) && f.id == Some(nextId)
    ensures Lookup(s + [f], m) == if m == nextId then Some(f) else Lookup(s, m)
  {
    var r := s + [f];
    assert IdsAscending(r, nextId + 1);
    if m == nextId {
      LookupFindsTheOnly(r, nextId + 1, |s|, m);
    } else if Lookup(s, m).Some? {
      var h := Lookup(s, m).value;
      var j :| 0 <= j < |s| && s[j] == h;
      LookupFindsTheOnly(r, nextId + 1, j, m);
    } else {
      assert forall i :: 0 <= i < |r| ==> r[i].id != Some(m);
    }
  }

  class PersistenceStore {
    /** The feedback table, in ascending id order. */
    var records: seq<Feedback>
    /** The id the next created feedback receives. */
    var nextId: Id
    /** Whether the persistence service answers; when it does not, every call fails. */
    var reachable: bool
    var users: set<Id>
    var recettes: set<Id>

    ghost predicate Valid()
      reads this
    {
      IdsAscending(records, nextId)
    }

    constructor (users: set<Id>, recettes: set<Id>, reachable: bool)
      ensures Valid()
      ensures this.records == [] && this.users == users && this.recettes == recettes
      ensures this.reachable == reachable
    {
      this.records := [];
      this.nextId := 1;
      this.users := users;
      this.recettes := recettes;
      this.reachable := reachable;
    }

    /** `utilisateurExists`: false on a 404 and on any other failure. */
    function UtilisateurExists(u: Id): (b: bool)
      reads this
      ensures b ==> reachable
      ensures b <==> reachable && u in users
    {
      reachable && u in users
    }

    /** `recetteExists`: false on a 404 and on any other failure. */
    function RecetteExists(rc: Id): (b: bool)
      reads this
      ensures b ==> reachable
      ensures b <==> reachable && rc in recettes
    {
      reachable && rc in recettes
    }

    function GetFeedbackById(id: Id): (r: Result<Feedback, ClientError>)
      reads this
      ensures r.Success? <==> reachable && Lookup(records, id).Some?
      ensures r.Success? ==> r.value in records && r.value.id == Some(id)
    {
      if !reachable then Failure(RemoteUnavailable)
      else match Lookup(records, id)
        case Some(f) => Success(f)
        case None => Failure(RemoteNotFound)
    }

    function GetAllFeedbacks(): (r: Result<seq<Feedback>, ClientError>)
      reads this
      ensures r.Success? <==> reachable
      ensures r.Success? ==> r.value == records
    {
      if reachable then Success(records) else Failure(RemoteUnavailable)
    }

    /** The store answers a user's listing with the repository's derived query. */
    function GetFeedbacksByUtilisateurId(u: Id): (r: Result<seq<Feedback>, ClientError>)
      reads this
      ensures r.Success? <==> reachable
      ensures r.Success? ==> Repository.NewestFirst(r.value)
      ensures r.Success? ==> forall f :: multiset(r.value)[f] == if f.utilisateurId == u then multiset(records)[f] else 0
    {
      if reachable then Success(Repository.FindByUserIdOrderByDateFeedbackDesc(records, u))
      else Failure(RemoteUnavailable)
    }

    /** The store answers a recipe's listing with the repository's derived query. */
    function GetFeedbacksByRecetteId(rc: Id): (r: Result<seq<Feedback>, ClientError>)
      reads this
      ensures r.Success? <==> reachable
      ensures r.Success? ==> Repository.NewestFirst(r.value)
      ensures r.Success? ==> forall f :: multiset(r.value)[f] == if f.recetteId == rc then multiset(records)[f] else 0
    {
      if reachable then Success(Repository.FindByRecetteIdOrderByDateFeedbackDesc(records, rc))
      else Failure(RemoteUnavailable)
    }

    /** `createFeedback`: the store assigns the next id and appends the record. */
    method CreateFeedback(dto: Feedback) returns (r: Result<Feedback, ClientError>)
      requires Valid()
      modifies this
      ensures Valid()
      ensures reachable == old(reachable) && users == old(users) && recettes == old(recettes)
      ensures r.Success? <==> old(reachable)
      ensures r.Success? ==> r.value == dto.(id := Some(old(nextId)))
      ensures r.Success? ==> records == old(records) + [r.value] && nextId == old(nextId) + 1
      ensures r.Failure? ==> records == old(records) && nextId == old(nextId)
    {
      if !reachable {
        return Failure(RemoteUnavailable);
      }
      var saved := dto.(id := Some(nextId));
      records := records + [saved];
      nextId := nextId + 1;
      r := Success(saved);
    }

    /** `updateFeedback`: a 404 for an unknown id, otherwise the stored record becomes `dto` under that id. */
    method UpdateFeedback(id: Id, dto: Feedback) returns (r: Result<Feedback, ClientError>)
      requires Valid()
      modifies this
      ensures Valid()
      ensures reachable == old(reachable) && users == old(users) && recettes == old(recettes)
      ensures nextId == old(nextId)
      ensures r.Success? <==> old(reachable) && Lookup(old(records), id).Some?
      ensures r.Success? ==> r.value == dto.(id := Some(id)) && records == Replace(old(records), id, r.value)
      ensures r.Failure? ==> records == old(records)
    {
      if !reachable {
        return Failure(RemoteUnavailable);
      }
      if Lookup(records, id).None? {
        return Failure(RemoteNotFound);
      }
      var saved := dto.(id := Some(id));
      records := Replace(records, id, saved);
      r := Success(saved);
    }

    /** `deleteFeedback`: a 404 for an unknown id, otherwise the record is gone. */
    method DeleteFeedback(id: Id) returns (r: Outcome<ClientError>)
      requires Valid()
      modifies this
      ensures Valid()
      ensures reachable == old(reachable) && users == old(users) && recettes == old(recettes)
      ensures nextId == old(nextId)
      ensures r.Pass? <==> old(reachable) && Lookup(old(records), id).Some?
      ensures r.Pass? ==> records == Remove(old(records), id)
      ensures r.Fail? ==> records == old(records)
    {
      if !reachable {
        return Fail(RemoteUnavailable);
      }
      if Lookup(records, id).None? {
        return Fail(RemoteNotFound);
      }
      RemoveKeepsIdsAscending(records, id, nextId);
      records := Remove(records, id);
      r := Pass;
    }
  }
}
