/** Audit logging (src/lib/audit.ts): eight helpers that each build one log
    record with a fixed action tag and a one-key metadata map, and a
    best-effort append that swallows any store failure. */
module Audit {
  import opened Common
  import opened Store

  /** The eight `log*` helpers. */
  datatype Helper =
    | EventCreation | EventUpdate | EventDeletion | EventFinalization | ReportUpload
    | UserRegistration | UserApproval | PublicQuestion

  const AllHelpers: seq<Helper> := [EventCreation, EventUpdate, EventDeletion, EventFinalization,
                                    ReportUpload, UserRegistration, UserApproval, PublicQuestion]

  function ActionTag(h: Helper): string {
    match h
    case EventCreation => "crear_evento"
    case EventUpdate => "editar_evento"
    case EventDeletion => "eliminar_evento"
    case EventFinalization => "finalizar_evento"
    case ReportUpload => "subir_informe"
    case UserRegistration => "registrar_usuario"
    case UserApproval => "aprobar_usuario"
    case PublicQuestion => "enviar_pregunta_publica"
  }

  predicate AboutUser(h: Helper) {
    h == UserRegistration || h == UserApproval
  }

  const EventNameKey := "nombreEvento"
  const UserEmailKey := "emailUsuario"

  /** The user helpers record the user's email, every other helper the
      event's title. */
  function MetaKey(h: Helper): (k: string)
    ensures k == UserEmailKey <==> AboutUser(h)
    ensures k == EventNameKey <==> !AboutUser(h)
  {
    if AboutUser(h) then UserEmailKey else EventNameKey
  }

  /** Reads an action tag back: the inverse of ActionTag. */
  function HelperOfTag(tag: string): (r: Option<Helper>)
    ensures r.Some? ==> ActionTag(r.value) == tag
  {
    if tag == "crear_evento" then Some(EventCreation)
    else if tag == "editar_evento" then Some(EventUpdate)
    else if tag == "eliminar_evento" then Some(EventDeletion)
    else if tag == "finalizar_evento" then Some(EventFinalization)
    else if tag == "subir_informe" then Some(ReportUpload)
    else if tag == "registrar_usuario" then Some(UserRegistration)
    else if tag == "aprobar_usuario" then Some(UserApproval)
    else if tag == "enviar_pregunta_publica" then Some(PublicQuestion)
    else None
  }

  /** Every tag reads back as the helper that wrote it, so no two helpers
      share a tag. */
  lemma TagRoundTrip(h: Helper)
    ensures HelperOfTag(ActionTag(h)) == Some(h)
  {
  }

  lemma TagsDistinct(h1: Helper, h2: Helper)
    ensures ActionTag(h1) == ActionTag(h2) <==> h1 == h2
  {
    TagRoundTrip(h1);
    TagRoundTrip(h2);
  }

  /** The record helper `h` asks to be logged: the actor unchanged, the
      target (an event id, or a user id for the user helpers) and the
      one-entry metadata map. */
  function AuditEntry(h: Helper, actor: string, targetId: string, detail: string): (d: LogDraft)
    ensures d.actor == actor && HelperOfTag(d.action) == Some(h)
    ensures d.targetId == Some(targetId)
    ensures d.meta.Some? && d.meta.value.Keys == {MetaKey(h)} && d.meta.value[MetaKey(h)] == detail
  {
    TagRoundTrip(h);
    LogDraft(actor, ActionTag(h), Some(targetId), Some(map[MetaKey(h) := detail]))
  }

  /** createAuditLog: the record is appended when the store works; when it
      fails the failure is swallowed and no log is written. Nothing else in
      the store ever changes. */
  method CreateAuditLog(db: Database, data: LogDraft, st: Stamp, storeFails: bool)
    modifies db
    ensures storeFails ==> db.Snapshot() == old(db.Snapshot())
    ensures !storeFails ==> db.Snapshot() == old(db.Snapshot()).(logs := old(db.Logs()) + [NewLog(data, st)])
  {
    if storeFails {
      return;
    }
    var _ := db.CreateLog(data, st);
  }

  /** Any of the eight helpers: one best-effort append of its record. */
  method LogAction(db: Database, h: Helper, actor: string, targetId: string, detail: string, st: Stamp, storeFails: bool)
    modifies db
    ensures storeFails ==> db.Snapshot() == old(db.Snapshot())
    ensures !storeFails ==> db.Snapshot() == old(db.Snapshot()).(logs := old(db.Logs()) + [NewLog(AuditEntry(h, actor, targetId, detail), st)])
  {
    CreateAuditLog(db, AuditEntry(h, actor, targetId, detail), st, storeFails);
  }
}
