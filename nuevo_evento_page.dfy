/** The new-event form (src/app/eventos/nuevo/page.tsx). Each handler
    computes the next form state from the current one; the contact and
    authority lists are edited by the same three operations, written here
    once over any row type with an id. Submitting shapes the form into the
    body the events API receives. */
module NuevoEventoPage {
  import opened Common
  import opened Store
  import opened Auth
  import opened ApiEventos
  import opened RouteGuard

  datatype FormContacto = FormContacto(id: string, nombre: string, telefono: string, email: string)
  datatype FormAutoridad = FormAutoridad(id: string, nombre: string, cargo: string)

  /** The form state. Every input holds text, the number of invitees too. */
  datatype EventForm = EventForm(
    sector: string, categoria: string, titulo: string, descripcion: string,
    fecha: string, horaInicio: string, horaFin: string, ubicacion: string,
    numeroConvocados: string, contactos: seq<FormContacto>, autoridades: seq<FormAutoridad>,
    asignadoA: string)

  function BlankContacto(id: string): FormContacto {
    FormContacto(id, "", "", "")
  }

  function BlankAutoridad(id: string): FormAutoridad {
    FormAutoridad(id, "", "")
  }

  function ContactoId(c: FormContacto): string { c.id }
  function AutoridadId(a: FormAutoridad): string { a.id }

  const InitialForm := EventForm("", "", "", "", "", "", "", "", "", [BlankContacto("1")], [BlankAutoridad("1")], "")

  // ----- Row editing, shared by both lists

  /** add: a blank row whose id is the list's length plus one, in decimal. */
  function AddRow<T>(rows: seq<T>, blank: string -> T): (r: seq<T>)
    ensures |r| == |rows| + 1 && r[..|rows|] == rows
    ensures r[|rows|] == blank(NatToString(|rows| + 1))
  {
    rows + [blank(NatToString(|rows| + 1))]
  }

  /** remove: nothing happens to a list of one row; otherwise every row with
      that id goes and the others stay in order. */
  /** The rows a remove keeps: those whose id differs. */
  function Keeps<T>(idOf: T -> string, id: string): T -> bool {
    (x: T) => idOf(x) != id
  }

  function RemoveRow<T>(rows: seq<T>, id: string, idOf: T -> string): (r: seq<T>)
    ensures |rows| <= 1 ==> r == rows
    ensures |rows| > 1 ==> forall i :: 0 <= i < |r| ==> idOf(r[i]) != id && r[i] in rows
    ensures |rows| > 1 ==> forall i :: 0 <= i < |rows| && idOf(rows[i]) != id ==> rows[i] in r
  {
    if |rows| > 1 then Filter(rows, Keeps(idOf, id)) else rows
  }

  /** update: `change` applied to every row with that id, the rest as they
      were, in place. */
  function UpdateRows<T>(rows: seq<T>, id: string, idOf: T -> string, change: T -> T): (r: seq<T>)
    ensures |r| == |rows|
    ensures forall i :: 0 <= i < |rows| && idOf(rows[i]) != id ==> r[i] == rows[i]
    ensures forall i :: 0 <= i < |rows| && idOf(rows[i]) == id ==> r[i] == change(rows[i])
  {
    if rows == [] then []
    else [if idOf(rows[0]) == id then change(rows[0]) else rows[0]] + UpdateRows(rows[1..], id, idOf, change)
  }

  predicate DistinctIds<T>(rows: seq<T>, idOf: T -> string) {
    forall i, j :: 0 <= i < j < |rows| ==> idOf(rows[i]) != idOf(rows[j])
  }

  /** With distinct ids, removing a present id takes out exactly that one row
      and shortens the list by one. */
  lemma {:induction false} RemoveRowExact<T>(rows: seq<T>, i: nat, idOf: T -> string)
    requires |rows| > 1 && i < |rows| && DistinctIds(rows, idOf)
    ensures RemoveRow(rows, idOf(rows[i]), idOf) == rows[..i] + rows[i + 1..]
    ensures |RemoveRow(rows, idOf(rows[i]), idOf)| == |rows| - 1
  {
    var id := idOf(rows[i]);
    var p := Keeps(idOf, id);
    var a, b := rows[..i], rows[i + 1..];
    assert rows == a + ([rows[i]] + b);
    forall k | 0 <= k < |a| ensures p(a[k]) {
      assert a[k] == rows[k];
    }
    forall k | 0 <= k < |b| ensures p(b[k]) {
      assert b[k] == rows[i + 1 + k];
    }
    FilterDropsOne(a, rows[i], b, p);
  }

  /** Filtering out one element between two stretches that pass keeps both
      stretches whole. */
  lemma {:induction false} FilterDropsOne<T>(a: seq<T>, x: T, b: seq<T>, p: T -> bool)
    requires forall k :: 0 <= k < |a| ==> p(a[k])
    requires forall k :: 0 <= k < |b| ==> p(b[k])
    requires !p(x)
    ensures Filter(a + ([x] + b), p) == a + b
  {
    var fa, fxb := Filter(a, p), Filter([x] + b, p);
    FilterAppend(a, [x] + b, p);
    FilterKeepsAll(a, p);
    FilterCons(x, b, p);
    FilterKeepsAll(b, p);
    assert fxb == b;
    assert fa == a;
  }

  /** An update that leaves ids alone keeps the list's ids. */
  lemma UpdateRowsKeepsIds<T>(rows: seq<T>, id: string, idOf: T -> string, change: T -> T)
    requires forall x :: idOf(change(x)) == idOf(x)
    ensures forall i :: 0 <= i < |rows| ==> idOf(UpdateRows(rows, id, idOf, change)[i]) == idOf(rows[i])
  {
  }

  // ----- The handlers

  datatype ContactoField = ContactoNombre | ContactoTelefono | ContactoEmail
  datatype AutoridadField = AutoridadNombre | AutoridadCargo

  /** `{ ...c, [field]: value }`: the named field changes and no other. */
  function SetContactoField(c: FormContacto, field: ContactoField, value: string): (r: FormContacto)
    ensures r.id == c.id
    ensures match field
            case ContactoNombre => r == c.(nombre := value)
            case ContactoTelefono => r == c.(telefono := value)
            case ContactoEmail => r == c.(email := value)
  {
    match field
    case ContactoNombre => c.(nombre := value)
    case ContactoTelefono => c.(telefono := value)
    case ContactoEmail => c.(email := value)
  }

  function SetAutoridadField(a: FormAutoridad, field: AutoridadField, value: string): (r: FormAutoridad)
    ensures r.id == a.id
    ensures match field
            case AutoridadNombre => r == a.(nombre := value)
            case AutoridadCargo => r == a.(cargo := value)
  {
    match field
    case AutoridadNombre => a.(nombre := value)
    case AutoridadCargo => a.(cargo := value)
  }

  function AddContacto(f: EventForm): (r: EventForm)
    ensures r.(contactos := f.contactos) == f
    ensures |r.contactos| == |f.contactos| + 1
  {
    f.(contactos := AddRow(f.contactos, BlankContacto))
  }

  function RemoveContacto(f: EventForm, id: string): (r: EventForm)
    ensures r.(contactos := f.contactos) == f
    ensures |f.contactos| <= 1 ==> r == f
  {
    f.(contactos := RemoveRow(f.contactos, id, ContactoId))
  }

  function UpdateContacto(f: EventForm, id: string, field: ContactoField, value: string): (r: EventForm)
    ensures r.(contactos := f.contactos) == f
    ensures |r.contactos| == |f.contactos|
  {
    f.(contactos := UpdateRows(f.contactos, id, ContactoId, (c: FormContacto) => SetContactoField(c, field, value)))
  }

  function AddAutoridad(f: EventForm): (r: EventForm)
    ensures r.(autoridades := f.autoridades) == f
    ensures |r.autoridades| == |f.autoridades| + 1
  {
    f.(autoridades := AddRow(f.autoridades, BlankAutoridad))
  }

  function RemoveAutoridad(f: EventForm, id: string): (r: EventForm)
    ensures r.(autoridades := f.autoridades) == f
    ensures |f.autoridades| <= 1 ==> r == f
  {
    f.(autoridades := RemoveRow(f.autoridades, id, AutoridadId))
  }

  function UpdateAutoridad(f: EventForm, id: string, field: AutoridadField, value: string): (r: EventForm)
    ensures r.(autoridades := f.autoridades) == f
    ensures |r.autoridades| == |f.autoridades|
  {
    f.(autoridades := UpdateRows(f.autoridades, id, AutoridadId, (a: FormAutoridad) => SetAutoridadField(a, field, value)))
  }

  /** While ids are unique, remove never empties a list. */
  lemma RemoveRowKeepsOne<T>(rows: seq<T>, id: string, idOf: T -> string)
    requires |rows| >= 1 && DistinctIds(rows, idOf)
    ensures |RemoveRow(rows, id, idOf)| >= 1
  {
    if |rows| > 1 {
      var k := if idOf(rows[0]) == id then 1 else 0;
      assert idOf(rows[k]) != id;
      assert Keeps(idOf, id)(rows[k]);
      assert rows[k] in RemoveRow(rows, id, idOf);
    }
  }

  /** Duplicate ids can empty the contact list, which the remove control is
      meant to prevent: from the single first row, add, remove row 1, add
      (a second row 2), then remove row 2. */
  lemma ContactListEmptied()
    ensures var one := [BlankContacto("1")];
            var two := AddRow(RemoveRow(AddRow(one, BlankContacto), "1", ContactoId), BlankContacto);
            && two == [BlankContacto("2"), BlankContacto("2")]
            && RemoveRow(two, "2", ContactoId) == []
  {
    SecondRowTwice();
    BothTwosRemoved();
  }

  /** The first three steps: the list ends with two rows numbered 2. */
  lemma SecondRowTwice()
    ensures AddRow(RemoveRow(AddRow([BlankContacto("1")], BlankContacto), "1", ContactoId), BlankContacto)
            == [BlankContacto("2"), BlankContacto("2")]
  {
    var one := [BlankContacto("1")];
    assert NatToString(2) == "2";
    var added := [BlankContacto("1"), BlankContacto("2")];
    assert AddRow(one, BlankContacto) == added;
    var p := Keeps(ContactoId, "1");
    assert ContactoId(added[0]) == "1";
    assert ContactoId(added[1]) != "1" by { assert ContactoId(added[1])[0] == '2'; }
    assert !p(added[0]) && p(added[1]);
    assert added == [] + ([added[0]] + [added[1]]);
    FilterDropsOne([], added[0], [added[1]], p);
  }

  /** The last step: removing row 2 takes out both rows. */
  lemma BothTwosRemoved()
    ensures RemoveRow([BlankContacto("2"), BlankContacto("2")], "2", ContactoId) == []
  {
    var two := [BlankContacto("2"), BlankContacto("2")];
    var p := Keeps(ContactoId, "2");
    assert !p(two[0]) && !p(two[1]);
    assert two[1..][1..] == [];
    assert Filter(two[1..], p) == [];
  }

  const ThreeContacts := [BlankContacto("1"), BlankContacto("2"), BlankContacto("3")]

  /** Removing row 2 of rows 1, 2 and 3 keeps rows 1 and 3. */
  lemma MiddleRowRemoved()
    ensures RemoveRow(ThreeContacts, "2", ContactoId) == [BlankContacto("1"), BlankContacto("3")]
  {
    var cs, p := ThreeContacts, Keeps(ContactoId, "2");
    assert ContactoId(cs[0]) != "2" by { assert ContactoId(cs[0])[0] == '1'; }
    assert ContactoId(cs[2]) != "2" by { assert ContactoId(cs[2])[0] == '3'; }
    assert ContactoId(cs[1]) == "2";
    assert p(cs[0]) && !p(cs[1]) && p(cs[2]);
    assert cs == [cs[0]] + ([cs[1]] + [cs[2]]);
    FilterDropsOne([cs[0]], cs[1], [cs[2]], p);
  }

  /** The id of a new row can repeat one already in the list: with rows 1,
      2 and 3, removing 2 and adding gives a second row 3, and removing 3
      afterwards takes out both. */
  lemma DuplicateIdAfterRemove()
    ensures var after := AddRow(RemoveRow(ThreeContacts, "2", ContactoId), BlankContacto);
            && after == [BlankContacto("1"), BlankContacto("3"), BlankContacto("3")]
            && !DistinctIds(after, ContactoId)
            && RemoveRow(after, "3", ContactoId) == [BlankContacto("1")]
  {
    MiddleRowRemoved();
    assert NatToString(3) == "3";
    var after := [BlankContacto("1"), BlankContacto("3"), BlankContacto("3")];
    assert ContactoId(after[1]) == ContactoId(after[2]);
    BothThreesRemoved();
  }

  /** Removing row 3 from rows 1, 3 and 3 takes out both threes. */
  lemma BothThreesRemoved()
    ensures RemoveRow([BlankContacto("1"), BlankContacto("3"), BlankContacto("3")], "3", ContactoId) == [BlankContacto("1")]
  {
    var after := [BlankContacto("1"), BlankContacto("3"), BlankContacto("3")];
    var p := Keeps(ContactoId, "3");
    assert "1" != "3" by { assert "1"[0] != "3"[0]; }
    assert p(after[0]) && !p(after[1]) && !p(after[2]);
    FilterCons(after[2], [], p);
    FilterCons(after[1], [after[2]], p);
    FilterCons(after[0], [after[1], after[2]], p);
    assert after == [after[0]] + [after[1], after[2]];
    assert [after[1], after[2]] == [after[1]] + [after[2]];
    assert [after[2]] == [after[2]] + [];
  }

  // ----- The evidently intended id: one more than the largest id in use

  /** Ids spelled as the decimal form of a number, as every id the form
      creates is. */
  predicate CanonicalIds<T>(rows: seq<T>, idOf: T -> string) {
    forall i :: 0 <= i < |rows| ==> idOf(rows[i]) == NatToString(DecimalValue(idOf(rows[i])))
  }

  function MaxIdNumber<T>(rows: seq<T>, idOf: T -> string): (m: nat)
    ensures forall i :: 0 <= i < |rows| ==> DecimalValue(idOf(rows[i])) <= m
  {
    if rows == [] then 0
    else
      var n := |rows| - 1;
      var m := MaxIdNumber(rows[..n], idOf);
      var v := DecimalValue(idOf(rows[n]));
      if v < m then m else v
  }

  /** add with a newId id: the largest id number plus one. */
  function AddRowFresh<T>(rows: seq<T>, blank: string -> T, idOf: T -> string): (r: seq<T>)
    ensures |r| == |rows| + 1 && r[..|rows|] == rows
    ensures r[|rows|] == blank(NatToString(MaxIdNumber(rows, idOf) + 1))
  {
    rows + [blank(NatToString(MaxIdNumber(rows, idOf) + 1))]
  }

  /** The newId id is new, so canonical distinct ids stay distinct. */
  lemma AddRowFreshKeepsIdsDistinct<T>(rows: seq<T>, blank: string -> T, idOf: T -> string)
    requires forall id :: idOf(blank(id)) == id
    requires CanonicalIds(rows, idOf) && DistinctIds(rows, idOf)
    ensures CanonicalIds(AddRowFresh(rows, blank, idOf), idOf)
    ensures DistinctIds(AddRowFresh(rows, blank, idOf), idOf)
  {
    var m := MaxIdNumber(rows, idOf);
    var newId := NatToString(m + 1);
    var r := AddRowFresh(rows, blank, idOf);
    DecimalValueOfNatToString(m + 1);
    assert idOf(r[|rows|]) == newId;
    forall i | 0 <= i < |rows| ensures idOf(rows[i]) != newId {
      assert DecimalValue(idOf(rows[i])) <= m;
    }
    forall i, j | 0 <= i < j < |r| ensures idOf(r[i]) != idOf(r[j]) {
      assert r[i] == rows[i];
    }
  }

  /** Removing rows keeps the remaining ids distinct. */
  lemma {:induction false} FilterKeepsIdsDistinct<T>(rows: seq<T>, p: T -> bool, idOf: T -> string)
    requires DistinctIds(rows, idOf)
    ensures DistinctIds(Filter(rows, p), idOf)
  {
    if rows != [] {
      var tail := rows[1..];
      FilterKeepsIdsDistinct(tail, p, idOf);
      var rest := Filter(tail, p);
      forall k | 0 <= k < |rest| ensures idOf(rest[k]) != idOf(rows[0]) {
        var m :| 0 <= m < |tail| && tail[m] == rest[k];
        assert rows[m + 1] == rest[k];
      }
    }
  }

  /** The invariant of a row list: never empty, ids canonical and distinct. */
  predicate WellFormedRows<T>(rows: seq<T>, idOf: T -> string) {
    |rows| >= 1 && CanonicalIds(rows, idOf) && DistinctIds(rows, idOf)
  }

  lemma RemoveRowKeepsWellFormed<T>(rows: seq<T>, id: string, idOf: T -> string)
    requires WellFormedRows(rows, idOf)
    ensures WellFormedRows(RemoveRow(rows, id, idOf), idOf)
  {
    RemoveRowKeepsOne(rows, id, idOf);
    if |rows| > 1 {
      FilterKeepsIdsDistinct(rows, Keeps(idOf, id), idOf);
      var r := RemoveRow(rows, id, idOf);
      forall k | 0 <= k < |r| ensures idOf(r[k]) == NatToString(DecimalValue(idOf(r[k]))) {
        var m :| 0 <= m < |rows| && rows[m] == r[k];
      }
    }
  }

  lemma UpdateRowsKeepsWellFormed<T>(rows: seq<T>, id: string, idOf: T -> string, change: T -> T)
    requires forall x :: idOf(change(x)) == idOf(x)
    requires WellFormedRows(rows, idOf)
    ensures WellFormedRows(UpdateRows(rows, id, idOf, change), idOf)
  {
    UpdateRowsKeepsIds(rows, id, idOf, change);
    var r := UpdateRows(rows, id, idOf, change);
    assert forall i :: 0 <= i < |r| ==> idOf(r[i]) == idOf(rows[i]);
  }

  /** The three row operations, with the intended add, keep ids canonical
      and unique. */
  lemma RowOperationsKeepIdsUnique<T>(rows: seq<T>, id: string, blank: string -> T, idOf: T -> string, change: T -> T)
    requires forall s :: idOf(blank(s)) == s
    requires forall x :: idOf(change(x)) == idOf(x)
    requires WellFormedRows(rows, idOf)
    ensures WellFormedRows(AddRowFresh(rows, blank, idOf), idOf)
    ensures WellFormedRows(RemoveRow(rows, id, idOf), idOf)
    ensures WellFormedRows(UpdateRows(rows, id, idOf, change), idOf)
  {
    AddRowFreshKeepsIdsDistinct(rows, blank, idOf);
    RemoveRowKeepsWellFormed(rows, id, idOf);
    UpdateRowsKeepsWellFormed(rows, id, idOf, change);
  }

  function AddContactoFresh(f: EventForm): (r: EventForm)
    ensures r.(contactos := f.contactos) == f
    ensures |r.contactos| == |f.contactos| + 1
  {
    f.(contactos := AddRowFresh(f.contactos, BlankContacto, ContactoId))
  }

  function AddAutoridadFresh(f: EventForm): (r: EventForm)
    ensures r.(autoridades := f.autoridades) == f
    ensures |r.autoridades| == |f.autoridades| + 1
  {
    f.(autoridades := AddRowFresh(f.autoridades, BlankAutoridad, AutoridadId))
  }

  predicate WellFormedIds(f: EventForm) {
    WellFormedRows(f.contactos, ContactoId) && WellFormedRows(f.autoridades, AutoridadId)
  }

  lemma InitialFormWellFormed()
    ensures WellFormedIds(InitialForm)
  {
    assert NatToString(1) == "1";
    assert DecimalValue("1") == 1 by {
      assert "1"[..0] == [];
    }
  }

  /** With the intended add every handler keeps both lists non-empty and
      their ids unique, so a remove takes out exactly one row. */
  lemma FreshHandlersKeepIdsUnique(f: EventForm, id: string, cf: ContactoField, af: AutoridadField, value: string)
    requires WellFormedIds(f)
    ensures WellFormedIds(AddContactoFresh(f)) && WellFormedIds(AddAutoridadFresh(f))
    ensures WellFormedIds(RemoveContacto(f, id)) && WellFormedIds(RemoveAutoridad(f, id))
    ensures WellFormedIds(UpdateContacto(f, id, cf, value)) && WellFormedIds(UpdateAutoridad(f, id, af, value))
  {
    RowOperationsKeepIdsUnique(f.contactos, id, BlankContacto, ContactoId, (c: FormContacto) => SetContactoField(c, cf, value));
    RowOperationsKeepIdsUnique(f.autoridades, id, BlankAutoridad, AutoridadId, (a: FormAutoridad) => SetAutoridadField(a, af, value));
  }

  /** In the scenario that repeats an id, the intended add gives row 4. */
  lemma FreshIdAfterRemove()
    ensures AddRowFresh(RemoveRow(ThreeContacts, "2", ContactoId), BlankContacto, ContactoId) ==
              [BlankContacto("1"), BlankContacto("3"), BlankContacto("4")]
  {
    MiddleRowRemoved();
    var kept := [BlankContacto("1"), BlankContacto("3")];
    assert DecimalValue("1") == 1 by { assert "1"[..0] == []; }
    assert DecimalValue("3") == 3 by { assert "3"[..0] == []; }
    assert kept[..1][..0] == [];
    assert MaxIdNumber(kept[..1], ContactoId) == 1;
    assert MaxIdNumber(kept, ContactoId) == 3;
    assert NatToString(4) == "4";
  }

  // ----- Submitting

  function ToContacto(c: FormContacto): Contacto {
    Contacto(c.id, c.nombre, c.telefono, Some(c.email))
  }

  function ToAutoridad(a: FormAutoridad): Autoridad {
    Autoridad(a.id, a.nombre, a.cargo)
  }

  function ContactosOf(cs: seq<FormContacto>): (r: seq<Contacto>)
    ensures |r| == |cs| && forall i :: 0 <= i < |cs| ==> r[i] == ToContacto(cs[i])
  {
    if cs == [] then [] else [ToContacto(cs[0])] + ContactosOf(cs[1..])
  }

  function AutoridadesOf(as_: seq<FormAutoridad>): (r: seq<Autoridad>)
    ensures |r| == |as_| && forall i :: 0 <= i < |as_| ==> r[i] == ToAutoridad(as_[i])
  {
    if as_ == [] then [] else [ToAutoridad(as_[0])] + AutoridadesOf(as_[1..])
  }

  predicate NamedContacto(c: FormContacto) { Trim(c.nombre) != "" }
  predicate NamedAutoridad(a: FormAutoridad) { Trim(a.nombre) != "" }

  /** The body handleSubmit sends: the form's fields, the number of invitees
      read with parseInt (NaN is sent as null, which reads as absent), and
      only the rows whose name is not blank. */
  function SubmitBody(f: EventForm): (b: EventBody)
    ensures b.numeroConvocados == ParseInt(f.numeroConvocados)
    ensures b.contactos.Some? && b.autoridades.Some?
    ensures forall i :: 0 <= i < |b.contactos.value| ==> Trim(b.contactos.value[i].nombre) != ""
    ensures forall i :: 0 <= i < |b.autoridades.value| ==> Trim(b.autoridades.value[i].nombre) != ""
    ensures b.creadoPor.None? && b.finalizado.None?
  {
    var cs := Filter(f.contactos, NamedContacto);
    var as_ := Filter(f.autoridades, NamedAutoridad);
    var contactos, autoridades := ContactosOf(cs), AutoridadesOf(as_);
    assert forall i :: 0 <= i < |contactos| ==> Trim(contactos[i].nombre) != "" by {
      forall i | 0 <= i < |contactos| ensures Trim(contactos[i].nombre) != "" {
        assert contactos[i] == ToContacto(cs[i]) && NamedContacto(cs[i]);
      }
    }
    assert forall i :: 0 <= i < |autoridades| ==> Trim(autoridades[i].nombre) != "" by {
      forall i | 0 <= i < |autoridades| ensures Trim(autoridades[i].nombre) != "" {
        assert autoridades[i] == ToAutoridad(as_[i]) && NamedAutoridad(as_[i]);
      }
    }
    EventBody(Some(f.sector), Some(f.categoria), Some(f.titulo), Some(f.descripcion), Some(f.fecha),
              Some(f.horaInicio), Some(f.horaFin), Some(f.ubicacion), ParseInt(f.numeroConvocados),
              Some(contactos), Some(autoridades),
              Some(f.asignadoA), None, None, None, None)
  }

  /** Every contact with a name is sent. */
  lemma SubmitKeepsNamedContacts(f: EventForm, i: nat)
    requires i < |f.contactos| && NamedContacto(f.contactos[i])
    ensures ToContacto(f.contactos[i]) in SubmitBody(f).contactos.value
  {
    var cs := Filter(f.contactos, NamedContacto);
    assert f.contactos[i] in cs;
    var k :| 0 <= k < |cs| && cs[k] == f.contactos[i];
    assert ContactosOf(cs)[k] == ToContacto(f.contactos[i]);
  }

  /** A form whose contacts all have blank names is refused by the API for
      lack of a contact, once every required field is filled. */
  lemma BlankContactsRefused(session: SessionUser, f: EventForm)
    requires MayCreate(session.rol)
    requires forall i :: 0 <= i < |f.contactos| ==> !NamedContacto(f.contactos[i])
    requires AllRequiredPresent(SubmitBody(f))
    ensures PostDecision(Pass(session), Some(SubmitBody(f))) == Reject(400, NoContactMessage)
  {
    var cs := Filter(f.contactos, NamedContacto);
    assert |cs| == 0;
    assert FirstMissing(SubmitBody(f)).None?;
  }

  /** A number of invitees that does not start with a digit is sent as null
      and refused as a missing field. */
  lemma UnparsableInviteesMissing(f: EventForm)
    requires ParseInt(f.numeroConvocados).None?
    ensures !FieldPresent(SubmitBody(f), NumeroConvocadosKey)
  {
    InviteesPresence(SubmitBody(f));
  }
}
