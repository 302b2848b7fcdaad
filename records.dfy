/**
 * The rows of the two SQLite tables api.php reads and writes: `pacientes`,
 * one row per occupied bed, and `auditoria`, the append-only log of
 * admissions ('entrada') and discharges ('saida').
 */
module Records {

  /** A nullable TEXT column. */
  datatype Cell = Null | Text(s: string)

  /** A row of `pacientes` as `SELECT *` returns it. */
  datatype Patient = Patient(
    id: int,
    nome: string,
    leito: int,
    local: string,
    nascimento: string,
    atendimento: string,
    aguardando: string,
    entrada: string,
    pendencias: string,
    medico: string,
    conduta: string,
    dieta: string,
    hospital: string,
    observacao: string,
    aguardandoVaga: string,
    status: string)

  /** A row of `auditoria`; an admission leaves `saida` null. */
  datatype AuditEntry = AuditEntry(
    nome: string,
    leito: int,
    local: string,
    entrada: Cell,
    saida: Cell,
    acao: string,
    hospital: Cell,
    timestamp: string)
}
