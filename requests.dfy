/**
 * The 'add' and 'delete' requests (api.php:97-191): the guards that turn a
 * request away before anything is written, and the rows an accepted request
 * writes. The clock reading and the id SQLite assigns are parameters; the
 * `pacientes` table the discharge looks the patient up in is an input
 * sequence.
 */
module Requests {
  import opened Wrappers
  import opened Php
  import opened Records

  /** A decoded request body. */
  type Input = map<string, Scalar>

  const AddError: string := "Preencha nome, leito e local"
  const DeleteError: string := "ID inválido"

  /** The answer to 'add': rejected with HTTP 400, or the patient row and the audit row written. */
  datatype AddOutcome = AddRejected(message: string) | Admitted(patient: Patient, audit: AuditEntry)

  /**
   * The answer to 'delete': rejected with HTTP 400, or the id deleted, the
   * audit row written, if any, and the `pacientes` rows that remain.
   */
  datatype DeleteOutcome =
    | DeleteRejected(message: string)
    | Deleted(id: int, audit: Option<AuditEntry>, remaining: seq<Patient>)

  /** `$input['nome'] ?? ''` as text, before trimming. */
  function NomeText(input: Input): string
  {
    ToText(Coalesce(input, "nome", StrValue("")))
  }

  /** `intval($input['leito'] ?? 0)`. */
  function LeitoOf(input: Input): int
  {
    IntValOf(Coalesce(input, "leito", IntValue(0)))
  }

  /** `$input['local'] ?? ''`, not trimmed and not converted. */
  function LocalOf(input: Input): Scalar
  {
    Coalesce(input, "local", StrValue(""))
  }

  /** An optional text field, `$input[$name] ?? ''`. */
  function Extra(input: Input, name: string): string
  {
    ToText(Coalesce(input, name, StrValue("")))
  }

  /** The patient row an accepted admission inserts; the optional fields default to ''. */
  function NewPatient(input: Input, nome: string, leito: int, local: string, entrada: string, id: int): Patient
  {
    Patient(
      id, nome, leito, local,
      Extra(input, "nascimento"), Extra(input, "atendimento"), Extra(input, "aguardando"),
      entrada,
      Extra(input, "pendencias"), Extra(input, "medico"), Extra(input, "conduta"),
      Extra(input, "dieta"), Extra(input, "hospital"), Extra(input, "observacao"),
      Extra(input, "aguardando_vaga"),
      "ocupado")
  }

  /** The 'entrada' audit row written next to a new patient row, stamped with its admission time. */
  function AdmissionAudit(p: Patient): AuditEntry
  {
    AuditEntry(p.nome, p.leito, p.local, Text(p.entrada), Null, "entrada", Text(p.hospital), p.entrada)
  }

  /**
   * Admission (api.php:98-152). It is turned away when the trimmed name is
   * blank or "0", the bed number reads as 0, or the sector is empty, "0" or 0;
   * otherwise it writes a patient row and an 'entrada' audit row that agree on
   * the patient, both stamped with the clock reading `entrada`.
   */
  function Add(input: Input, entrada: string, id: int): (r: AddOutcome)
    ensures r.AddRejected? <==>
      (forall i :: 0 <= i < |NomeText(input)| ==> IsTrimChar(NomeText(input)[i])) ||
      Trim(NomeText(input)) == "0" || LeitoOf(input) == 0 || !Truthy(LocalOf(input))
    ensures r.AddRejected? ==> r.message == AddError
    ensures r.Admitted? ==> r.patient.id == id && r.patient.nome == Trim(NomeText(input)) && r.patient.leito == LeitoOf(input)
    ensures r.Admitted? ==> r.patient.nome != "" && r.patient.nome != "0" && r.patient.leito != 0
    ensures r.Admitted? ==> r.patient.local == ToText(LocalOf(input)) && r.patient.local != "" && r.patient.local != "0"
    ensures r.Admitted? ==> r.patient.hospital == Extra(input, "hospital") && r.patient.observacao == Extra(input, "observacao")
    ensures r.Admitted? ==>
      r.patient.nascimento == Extra(input, "nascimento") && r.patient.atendimento == Extra(input, "atendimento") &&
      r.patient.aguardando == Extra(input, "aguardando") && r.patient.pendencias == Extra(input, "pendencias")
    ensures r.Admitted? ==>
      r.patient.medico == Extra(input, "medico") && r.patient.conduta == Extra(input, "conduta") &&
      r.patient.dieta == Extra(input, "dieta") && r.patient.aguardandoVaga == Extra(input, "aguardando_vaga")
    ensures r.Admitted? ==> r.patient.entrada == entrada && r.patient.status == "ocupado"
    ensures r.Admitted? ==> r.audit == AdmissionAudit(r.patient)
  {
    var nome := Trim(NomeText(input));
    var leito := LeitoOf(input);
    var local := LocalOf(input);
    if !Truthy(StrValue(nome)) || leito == 0 || !Truthy(local) then
      AddRejected(AddError)
    else
      TruthyText(local);
      var localText := ToText(local);
      var patient := NewPatient(input, nome, leito, localText, entrada, id);
      Admitted(patient, AdmissionAudit(patient))
  }

  /** `SELECT * FROM pacientes WHERE id = :id`, first row. */
  function FindById(pacientes: seq<Patient>, id: int): (r: Option<Patient>)
    ensures r.Some? <==> exists k :: 0 <= k < |pacientes| && pacientes[k].id == id
    ensures r.Some? ==> r.value in pacientes && r.value.id == id
  {
    if pacientes == [] then None
    else if pacientes[0].id == id then Some(pacientes[0])
    else
      var rest := FindById(pacientes[1..], id);
      assert forall k :: 1 <= k < |pacientes| ==> pacientes[k] == pacientes[1..][k - 1];
      rest
  }

  /** `DELETE FROM pacientes WHERE id = :id`: every row with that id goes, the others stay in order. */
  function Without(pacientes: seq<Patient>, id: int): (r: seq<Patient>)
    ensures forall p :: p in r <==> p in pacientes && p.id != id
    ensures |r| <= |pacientes|
  {
    if pacientes == [] then []
    else
      var rest := Without(pacientes[..|pacientes| - 1], id);
      var last := pacientes[|pacientes| - 1];
      assert forall p :: p in pacientes <==> p in pacientes[..|pacientes| - 1] || p == last;
      if last.id == id then rest else rest + [last]
  }

  /** The 'saida' audit row for a discharged patient, stamped with the clock reading `saida`. */
  function DischargeAudit(p: Patient, saida: string): AuditEntry
  {
    AuditEntry(p.nome, p.leito, p.local, Text(p.entrada), Text(saida), "saida", Text(p.hospital), saida)
  }

  /**
   * Discharge (api.php:155-191). It is turned away when the id does not read as
   * a positive integer; otherwise the row with that id is deleted, and an audit
   * row is written only when such a row existed.
   */
  function Delete(input: Input, pacientes: seq<Patient>, saida: string): (r: DeleteOutcome)
    ensures r.DeleteRejected? <==> IntValOf(Coalesce(input, "id", IntValue(0))) <= 0
    ensures r.DeleteRejected? ==> r.message == DeleteError
    ensures r.Deleted? ==> r.id == IntValOf(Coalesce(input, "id", IntValue(0))) && r.id > 0
    ensures r.Deleted? ==> (r.audit.Some? <==> exists k :: 0 <= k < |pacientes| && pacientes[k].id == r.id)
    ensures r.Deleted? && r.audit.Some? ==>
      exists p :: p in pacientes && p.id == r.id && r.audit.value == DischargeAudit(p, saida)
    ensures r.Deleted? ==> r.remaining == Without(pacientes, r.id)
  {
    var id := IntValOf(Coalesce(input, "id", IntValue(0)));
    if id <= 0 then DeleteRejected(DeleteError)
    else
      match FindById(pacientes, id)
      case Some(p) => Deleted(id, Some(DischargeAudit(p, saida)), Without(pacientes, id))
      case None => Deleted(id, None, Without(pacientes, id))
  }

  /** A blank name is turned away: no patient row and no audit row are written. */
  lemma EmptyNameRejected(entrada: string, id: int)
    ensures Add(map["nome" := StrValue(""), "leito" := IntValue(3), "local" := StrValue("X")], entrada, id)
      == AddRejected(AddError)
  {
    var input := map["nome" := StrValue(""), "leito" := IntValue(3), "local" := StrValue("X")];
    assert NomeText(input) == "";
  }

  /** PHP reads the name "0" as false, so it is turned away like a blank one. */
  lemma ZeroNameRejected(entrada: string, id: int)
    ensures Add(map["nome" := StrValue(" 0 "), "leito" := IntValue(3), "local" := StrValue("X")], entrada, id).AddRejected?
  {
    var input := map["nome" := StrValue(" 0 "), "leito" := IntValue(3), "local" := StrValue("X")];
    assert NomeText(input) == " 0 ";
    TrimZero();
  }

  lemma TrimZero()
    ensures Trim(" 0 ") == "0"
  {
    assert " 0 "[1..] == "0 ";
    assert "0 "[..1] == "0";
  }

  /** The guard lets a negative bed number through: `intval("-1")` is -1, which is truthy. */
  lemma NegativeBedAdmitted(input: Input, entrada: string, id: int)
    requires Trim(NomeText(input)) == "Ana" && LocalOf(input) == StrValue("X")
    requires Coalesce(input, "leito", IntValue(0)) == StrValue("-1")
    ensures Add(input, entrada, id).Admitted? && Add(input, entrada, id).patient.leito == -1
  {
    IntValMinusOne();
    AddAccepts(input, entrada, id);
  }

  /** Every request that passes the three checks is admitted, under the bed number it asked for. */
  lemma AddAccepts(input: Input, entrada: string, id: int)
    requires Trim(NomeText(input)) != "" && Trim(NomeText(input)) != "0"
    requires LeitoOf(input) != 0 && Truthy(LocalOf(input))
    ensures Add(input, entrada, id).Admitted? && Add(input, entrada, id).patient.leito == LeitoOf(input)
  {
  }

  lemma IntValMinusOne()
    ensures IntVal("-1") == -1
  {
    assert IntToString(-1) == "-1" by {
      assert NatToString(1) == "1";
    }
    IntValOfIntToString(-1);
  }
}
