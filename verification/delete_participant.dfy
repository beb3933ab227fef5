/**
 The handler behind the participant-deletion route: who may delete a
 participant, which delete query their role selects, and how the query's
 outcome becomes the HTTP response. The database is a parameter that answers
 each delete query with success or an error message; the handler's result
 records the queries it issued alongside the response.
 */
module DeleteParticipant {

  /** The roles a caller's token can carry; only organisers and team chefs may delete. */
  datatype Role = Organizer | Chef | Participant | OtherRole(name: string)

  datatype University = University(name: string)

  datatype Uuid = Uuid(bytes: seq<bv8>)

  /** The authenticated caller, as decoded from their token. */
  datatype Claims = Claims(role: Role, university: University)

  /** The two delete queries the handler can issue. */
  datatype DeleteQuery =
    | DeleteAny(id: Uuid)
    | DeleteInUniversity(id: Uuid, university: University)

  datatype DbResult = Ok | Err(message: string)

  datatype Status = Created | Forbidden | InternalServerError {
    function Code(): (c: nat)
      ensures 200 <= c < 600
    {
      match this
      case Created => 201
      case Forbidden => 403
      case InternalServerError => 500
    }
  }

  datatype Response = Response(status: Status, body: string)

  /** A handled request: the response sent and the database queries issued, in order. */
  datatype Handled = Handled(response: Response, queries: seq<DeleteQuery>)

  const DeletedBody: string := "Participant deleted"
  const ForbiddenBody: string := "Forbidden"

  /** The authorisation rule: the roles allowed to delete participants at all. */
  predicate MayDelete(role: Role) {
    role == Organizer || role == Chef
  }

  /** The scope a role's deletion is confined to: none for an organiser, their own university for a chef. */
  predicate WithinScope(claims: Claims, q: DeleteQuery) {
    match q
    case DeleteAny(_) => claims.role == Organizer
    case DeleteInUniversity(_, u) => claims.role == Chef && u == claims.university
  }

  /** How the outcome of the delete query becomes the response. */
  function Respond(outcome: DbResult): (r: Response)
    ensures r.status != Forbidden
    ensures r.status == Created <==> outcome.Ok?
    ensures outcome.Ok? ==> r == Response(Created, DeletedBody)
    ensures outcome.Err? ==> r.body == outcome.message
  {
    match outcome
    case Ok => Response(Created, DeletedBody)
    case Err(e) => Response(InternalServerError, e)
  }

  /** Deleting participant `id` on behalf of `claims`, against database `db`. */
  function Delete(claims: Claims, id: Uuid, db: DeleteQuery -> DbResult): (h: Handled)
    ensures |h.queries| <= 1
    ensures h.queries == [] <==> !MayDelete(claims.role)
    ensures h.queries == [] <==> h.response == Response(Forbidden, ForbiddenBody)
    ensures forall q :: q in h.queries ==> q.id == id && WithinScope(claims, q)
    ensures h.queries != [] ==> h.response == Respond(db(h.queries[0]))
  {
    match claims.role
    case Organizer =>
      var q := DeleteAny(id);
      Handled(Respond(db(q)), [q])
    case Chef =>
      var q := DeleteInUniversity(id, claims.university);
      Handled(Respond(db(q)), [q])
    case _ =>
      Handled(Response(Forbidden, ForbiddenBody), [])
  }

  /** An organiser's delete that succeeds answers 201 with the confirmation text. */
  lemma OrganizerSucceeds(claims: Claims, id: Uuid, db: DeleteQuery -> DbResult)
    requires claims.role == Organizer && db(DeleteAny(id)).Ok?
    ensures Delete(claims, id, db).response == Response(Created, DeletedBody)
    ensures Delete(claims, id, db).response.status.Code() == 201
  {
  }

  /** A chef's delete is confined to the chef's own university, and answers 201 when it succeeds. */
  lemma ChefSucceeds(claims: Claims, id: Uuid, db: DeleteQuery -> DbResult)
    requires claims.role == Chef && db(DeleteInUniversity(id, claims.university)).Ok?
    ensures Delete(claims, id, db).queries == [DeleteInUniversity(id, claims.university)]
    ensures Delete(claims, id, db).response == Response(Created, DeletedBody)
  {
  }

  /** A failing query is reported as 500 with the database's error text, for either role. */
  lemma ErrorIsInternal(claims: Claims, id: Uuid, db: DeleteQuery -> DbResult)
    requires MayDelete(claims.role)
    ensures var h := Delete(claims, id, db);
            db(h.queries[0]).Err? ==>
              h.response == Response(InternalServerError, db(h.queries[0]).message)
              && h.response.status.Code() == 500
  {
  }

  /** Every other role is refused with 403 and no query, whatever the database would do. */
  lemma OthersForbidden(claims: Claims, id: Uuid, db1: DeleteQuery -> DbResult, db2: DeleteQuery -> DbResult)
    requires !MayDelete(claims.role)
    ensures Delete(claims, id, db1).response.status.Code() == 403
    ensures Delete(claims, id, db1) == Delete(claims, id, db2)
  {
  }

  /** An organiser never issues the university-scoped query, and a chef never the unrestricted one. */
  lemma QueryMatchesRole(claims: Claims, id: Uuid, db: DeleteQuery -> DbResult)
    ensures claims.role == Organizer ==> forall q :: q in Delete(claims, id, db).queries ==> q.DeleteAny?
    ensures claims.role == Chef ==> forall q :: q in Delete(claims, id, db).queries ==> q.DeleteInUniversity?
  {
  }

  /** The response depends on the database only through the queries actually issued. */
  lemma OnlyIssuedQueriesMatter(claims: Claims, id: Uuid, db1: DeleteQuery -> DbResult, db2: DeleteQuery -> DbResult)
    requires forall q :: q in Delete(claims, id, db1).queries ==> db1(q) == db2(q)
    ensures Delete(claims, id, db1) == Delete(claims, id, db2)
  {
  }
}
