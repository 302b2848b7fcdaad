/**
 * The 'relatorio' report (api.php:200-291): the fold that pairs the audit
 * log's admissions and discharges into stays, kept in a PHP array whose keys
 * remember their insertion order, and the summary that counts the stays and
 * averages their durations.
 *
 * The key a stay is filed under is a parameter of the fold, so that the same
 * fold describes both the key api.php builds (`nome . '-' . leito`, see
 * `ConcatKey`) and the (name, bed) pair that key is meant to stand for
 * (`PairKey`), which the report uses.
 */
module Report {
  import opened Wrappers
  import opened Php
  import opened Records
  import opened Requests

  // ---------------------------------------------------------------------------
  // keys

  /** The (name, bed) pair a stay belongs to. */
  datatype Key = Key(nome: string, leito: int)

  function PairKey(r: AuditEntry): Key
  {
    Key(r.nome, r.leito)
  }

  /** `$r['nome'] . '-' . $r['leito']`: the key as api.php:226 writes it. */
  function ConcatKey(r: AuditEntry): string
  {
    r.nome + "-" + IntToString(r.leito)
  }

  // ---------------------------------------------------------------------------
  // stays and the ordered map that holds them

  /** One reconstructed stay; the placeholder "-" stands for a missing admission or discharge. */
  datatype Stay = Stay(nome: string, local: string, leito: int, entrada: Cell, saida: Cell, hospital: string)

  const Dash: Cell := Text("-")

  /** `$r['hospital'] ?? '-'`. */
  function HospitalOf(c: Cell): string
  {
    match c
    case Null => "-"
    case Text(s) => s
  }

  /** The stay an 'entrada' row opens: no discharge yet. */
  function Opened(r: AuditEntry): Stay
  {
    Stay(r.nome, r.local, r.leito, r.entrada, Dash, HospitalOf(r.hospital))
  }

  /** The stay a 'saida' row with no admission on file creates. */
  function Orphan(r: AuditEntry): Stay
  {
    Stay(r.nome, r.local, r.leito, Dash, r.saida, HospitalOf(r.hospital))
  }

  /**
   * A PHP array from keys to stays: `keys` lists the keys in the order they
   * were first inserted, which is the order `foreach` and `array_values` see.
   */
  datatype Stays<K> = Stays(keys: seq<K>, dados: map<K, Stay>)

  predicate Ordered<K(==)>(m: Stays<K>)
  {
    m.dados.Keys == (set k | k in m.keys) &&
    (forall i, j :: 0 <= i < j < |m.keys| ==> m.keys[i] != m.keys[j])
  }

  /** `$dados[$chave] = $v`: an existing key keeps its place, a new one goes last. */
  function Put<K(==)>(m: Stays<K>, k: K, v: Stay): (r: Stays<K>)
    requires Ordered(m)
    ensures Ordered(r) && r.dados == m.dados[k := v]
    ensures r.keys == if k in m.dados then m.keys else m.keys + [k]
  {
    Stays(if k in m.dados then m.keys else m.keys + [k], m.dados[k := v])
  }

  /** One pass of the loop body at api.php:226-250, for a row filed under `k`. */
  function Step<K(==)>(m: Stays<K>, r: AuditEntry, k: K): (r': Stays<K>)
    requires Ordered(m)
    ensures Ordered(r')
  {
    if r.acao == "entrada" then Put(m, k, Opened(r))
    else if r.acao == "saida" then
      if k in m.dados then Put(m, k, m.dados[k].(saida := r.saida))
      else Put(m, k, Orphan(r))
    else m
  }

  /** The array `$dados` after the loop has read all of `rows`. */
  function Pairing<K(==)>(rows: seq<AuditEntry>, key: AuditEntry -> K): (m: Stays<K>)
    ensures Ordered(m)
  {
    if rows == [] then Stays([], map[])
    else
      var last := rows[|rows| - 1];
      Step(Pairing(rows[..|rows| - 1], key), last, key(last))
  }

  /** The loop at api.php:225-251, with the array as an ordered key list and a map. */
  method Reconstruct<K(==)>(rows: seq<AuditEntry>, key: AuditEntry -> K) returns (keys: seq<K>, dados: map<K, Stay>)
    ensures Stays(keys, dados) == Pairing(rows, key)
  {
    keys := [];
    dados := map[];
    var n := 0;
    while n < |rows|
      invariant 0 <= n <= |rows|
      invariant Stays(keys, dados) == Pairing(rows[..n], key)
    {
      var r := rows[n];
      var chave := key(r);
      if r.acao == "entrada" {
        if chave !in dados {
          keys := keys + [chave];
        }
        dados := dados[chave := Opened(r)];
      } else if r.acao == "saida" {
        if chave in dados {
          dados := dados[chave := dados[chave].(saida := r.saida)];
        } else {
          keys := keys + [chave];
          dados := dados[chave := Orphan(r)];
        }
      }
      assert rows[..n + 1][..n] == rows[..n];
      n := n + 1;
    }
    assert rows[..|rows|] == rows;
  }

  // ---------------------------------------------------------------------------
  // what the fold leaves under each key, stated row by row

  /** The position of the last row filed under `k` with action `acao`. */
  function LastIndex<K(==)>(rows: seq<AuditEntry>, key: AuditEntry -> K, k: K, acao: string): (r: Option<nat>)
    ensures r.Some? <==> exists i :: 0 <= i < |rows| && key(rows[i]) == k && rows[i].acao == acao
    ensures r.Some? ==> r.value < |rows| && key(rows[r.value]) == k && rows[r.value].acao == acao
    ensures r.Some? ==> forall i :: r.value < i < |rows| ==> !(key(rows[i]) == k && rows[i].acao == acao)
  {
    if rows == [] then None
    else if key(rows[|rows| - 1]) == k && rows[|rows| - 1].acao == acao then Some(|rows| - 1)
    else LastIndex(rows[..|rows| - 1], key, k, acao)
  }

  /** The position of the first row filed under `k` with action `acao`. */
  function FirstIndex<K(==)>(rows: seq<AuditEntry>, key: AuditEntry -> K, k: K, acao: string): (r: Option<nat>)
    ensures r.Some? <==> exists i :: 0 <= i < |rows| && key(rows[i]) == k && rows[i].acao == acao
    ensures r.Some? ==> r.value < |rows| && key(rows[r.value]) == k && rows[r.value].acao == acao
    ensures r.Some? ==> forall i :: 0 <= i < r.value ==> !(key(rows[i]) == k && rows[i].acao == acao)
  {
    if rows == [] then None
    else
      match FirstIndex(rows[..|rows| - 1], key, k, acao)
      case Some(i) => Some(i)
      case None =>
        if key(rows[|rows| - 1]) == k && rows[|rows| - 1].acao == acao then Some(|rows| - 1) else None
  }

  /**
   * The stay a report shows for `k`, read straight off the log: the last
   * admission, closed by the last discharge after it if there is one; with no
   * admission, the first discharge, carrying the discharge time of the last
   * one; with neither, no stay.
   */
  function ReferenceStay<K(==)>(rows: seq<AuditEntry>, key: AuditEntry -> K, k: K): Option<Stay>
  {
    var e := LastIndex(rows, key, k, "entrada");
    var s := LastIndex(rows, key, k, "saida");
    if e.Some? then
      Some(Opened(rows[e.value]).(saida := if s.Some? && s.value > e.value then rows[s.value].saida else Dash))
    else if s.Some? then
      var f := FirstIndex(rows, key, k, "saida");
      Some(Orphan(rows[f.value]).(saida := rows[s.value].saida))
    else None
  }

  /** `$dados[$k] ?? null`. */
  function Lookup<K>(m: Stays<K>, k: K): Option<Stay>
  {
    if k in m.dados then Some(m.dados[k]) else None
  }

  /** What one row filed under a key does to the stay that key holds. */
  function StepStay(o: Option<Stay>, r: AuditEntry): Option<Stay>
  {
    if r.acao == "entrada" then Some(Opened(r))
    else if r.acao == "saida" then Some(if o.Some? then o.value.(saida := r.saida) else Orphan(r))
    else o
  }

  /** The fold files a stay under exactly the keys the log mentions, and it is the one `ReferenceStay` describes. */
  lemma {:induction false} PairingMatchesReference<K>(rows: seq<AuditEntry>, key: AuditEntry -> K, k: K)
    ensures Lookup(Pairing(rows, key), k) == ReferenceStay(rows, key, k)
  {
    if rows != [] {
      var prefix := rows[..|rows| - 1];
      PairingMatchesReference(prefix, key, k);
      PairingStep(rows, key, k);
      ReferenceStep(rows, key, k);
    }
  }

  lemma PairingStep<K>(rows: seq<AuditEntry>, key: AuditEntry -> K, k: K)
    requires rows != []
    ensures var r := rows[|rows| - 1];
      Lookup(Pairing(rows, key), k) ==
        if key(r) == k then StepStay(Lookup(Pairing(rows[..|rows| - 1], key), k), r)
        else Lookup(Pairing(rows[..|rows| - 1], key), k)
  {
    var r := rows[|rows| - 1];
    StepLookup(Pairing(rows[..|rows| - 1], key), r, key(r), k);
  }

  /** One row changes only the stay under its own key, as `StepStay` says. */
  lemma StepLookup<K>(m: Stays<K>, r: AuditEntry, kr: K, k: K)
    requires Ordered(m)
    ensures Lookup(Step(m, r, kr), k) == if kr == k then StepStay(Lookup(m, k), r) else Lookup(m, k)
  {
    if r.acao == "entrada" {
      LookupPut(m, kr, Opened(r), k);
    } else if r.acao == "saida" {
      if kr in m.dados {
        LookupPut(m, kr, m.dados[kr].(saida := r.saida), k);
      } else {
        LookupPut(m, kr, Orphan(r), k);
      }
    }
  }

  lemma LookupPut<K>(m: Stays<K>, kr: K, v: Stay, k: K)
    requires Ordered(m)
    ensures Lookup(Put(m, kr, v), k) == if kr == k then Some(v) else Lookup(m, k)
  {
  }

  lemma ReferenceStep<K>(rows: seq<AuditEntry>, key: AuditEntry -> K, k: K)
    requires rows != []
    ensures var r := rows[|rows| - 1];
      ReferenceStay(rows, key, k) ==
        if key(r) == k then StepStay(ReferenceStay(rows[..|rows| - 1], key, k), r)
        else ReferenceStay(rows[..|rows| - 1], key, k)
  {
    var n := |rows| - 1;
    var prefix := rows[..n];
    var r := rows[n];
    var e := LastIndex(prefix, key, k, "entrada");
    var s := LastIndex(prefix, key, k, "saida");
    var f := FirstIndex(prefix, key, k, "saida");
    if key(r) != k || (r.acao != "entrada" && r.acao != "saida") {
      assert LastIndex(rows, key, k, "entrada") == e && LastIndex(rows, key, k, "saida") == s;
      assert FirstIndex(rows, key, k, "saida") == f;
    } else if r.acao == "entrada" {
      assert LastIndex(rows, key, k, "entrada") == Some(n) && LastIndex(rows, key, k, "saida") == s;
    } else {
      assert LastIndex(rows, key, k, "entrada") == e && LastIndex(rows, key, k, "saida") == Some(n);
      assert FirstIndex(rows, key, k, "saida") == if f.Some? then f else Some(n);
    }
  }

  /** An 'entrada' row replaces whatever stay its key held and leaves it open. */
  lemma EntradaOverwrites<K>(rows: seq<AuditEntry>, key: AuditEntry -> K, r: AuditEntry)
    requires r.acao == "entrada"
    ensures Pairing(rows + [r], key).dados[key(r)] == Opened(r)
    ensures Pairing(rows + [r], key).dados[key(r)].saida == Dash
    ensures Pairing(rows + [r], key).keys ==
      if key(r) in Pairing(rows, key).dados then Pairing(rows, key).keys else Pairing(rows, key).keys + [key(r)]
  {
    assert (rows + [r])[..|rows|] == rows;
  }

  /** A 'saida' row closes the stay its key holds, or opens one with no admission. */
  lemma SaidaCloses<K>(rows: seq<AuditEntry>, key: AuditEntry -> K, r: AuditEntry)
    requires r.acao == "saida"
    ensures key(r) in Pairing(rows, key).dados ==>
      Pairing(rows + [r], key).dados[key(r)] == Pairing(rows, key).dados[key(r)].(saida := r.saida) &&
      Pairing(rows + [r], key).keys == Pairing(rows, key).keys
    ensures key(r) !in Pairing(rows, key).dados ==>
      Pairing(rows + [r], key).dados[key(r)] == Orphan(r) && Orphan(r).entrada == Dash &&
      Pairing(rows + [r], key).keys == Pairing(rows, key).keys + [key(r)]
  {
    assert (rows + [r])[..|rows|] == rows;
  }

  /** A row whose action is neither 'entrada' nor 'saida' changes nothing. */
  lemma OtherActionIgnored<K>(rows: seq<AuditEntry>, key: AuditEntry -> K, r: AuditEntry)
    requires r.acao != "entrada" && r.acao != "saida"
    ensures Pairing(rows + [r], key) == Pairing(rows, key)
  {
    assert (rows + [r])[..|rows|] == rows;
  }

  // ---------------------------------------------------------------------------
  // the order the stays come out in

  function Earliest(a: Option<nat>, b: Option<nat>): (r: Option<nat>)
    ensures r.Some? <==> a.Some? || b.Some?
    ensures r.Some? ==> (r == a || r == b) && (a.Some? ==> r.value <= a.value) && (b.Some? ==> r.value <= b.value)
  {
    if a.None? then b
    else if b.None? then a
    else if a.value <= b.value then a else b
  }

  /** The position of the first 'entrada' or 'saida' row filed under `k`. */
  function FirstSeen<K(==)>(rows: seq<AuditEntry>, key: AuditEntry -> K, k: K): Option<nat>
  {
    Earliest(FirstIndex(rows, key, k, "entrada"), FirstIndex(rows, key, k, "saida"))
  }

  /** A key holds a stay exactly when some admission or discharge is filed under it. */
  lemma PairingKeys<K>(rows: seq<AuditEntry>, key: AuditEntry -> K, k: K)
    ensures k in Pairing(rows, key).dados <==> FirstSeen(rows, key, k).Some?
  {
    PairingMatchesReference(rows, key, k);
    assert k in Pairing(rows, key).dados <==> Lookup(Pairing(rows, key), k).Some?;
  }

  /** The stays come out in the order their keys first appear in the log. */
  lemma {:induction false} PairingOrder<K>(rows: seq<AuditEntry>, key: AuditEntry -> K)
    ensures forall i, j :: 0 <= i < j < |Pairing(rows, key).keys| ==>
      FirstSeen(rows, key, Pairing(rows, key).keys[i]).Some? &&
      FirstSeen(rows, key, Pairing(rows, key).keys[j]).Some? &&
      FirstSeen(rows, key, Pairing(rows, key).keys[i]).value < FirstSeen(rows, key, Pairing(rows, key).keys[j]).value
  {
    if rows != [] {
      var prefix := rows[..|rows| - 1];
      var r := rows[|rows| - 1];
      assert rows == prefix + [r];
      PairingOrder(prefix, key);
      var before := Pairing(prefix, key).keys;
      var after := Pairing(rows, key).keys;
      forall i | 0 <= i < |before|
        ensures FirstSeen(rows, key, before[i]) == FirstSeen(prefix, key, before[i])
        ensures FirstSeen(prefix, key, before[i]).Some?
      {
        PairingKeys(prefix, key, before[i]);
        FirstSeenExtends(prefix, key, before[i], r);
      }
      assert after == before || after == before + [key(r)];
      if after != before {
        PairingKeys(prefix, key, key(r));
        FirstSeenExtends(prefix, key, key(r), r);
        PairingKeys(rows, key, key(r));
      }
      forall i, j | 0 <= i < j < |after|
        ensures FirstSeen(rows, key, after[i]).Some? && FirstSeen(rows, key, after[j]).Some?
        ensures FirstSeen(rows, key, after[i]).value < FirstSeen(rows, key, after[j]).value
      {
        assert after[i] == before[i];
        if j < |before| {
          assert after[j] == before[j];
        } else {
          assert after[j] == key(r);
          assert FirstSeen(prefix, key, before[i]).value < |prefix|;
        }
      }
    } else {
      assert Pairing(rows, key).keys == [];
    }
  }

  /** Appending one row moves no key's first appearance, and a new key first appears at the end. */
  lemma FirstSeenExtends<K>(rows: seq<AuditEntry>, key: AuditEntry -> K, k: K, r: AuditEntry)
    ensures FirstSeen(rows, key, k).Some? ==> FirstSeen(rows + [r], key, k) == FirstSeen(rows, key, k)
    ensures FirstSeen(rows, key, k).None? ==>
      (FirstSeen(rows + [r], key, k).Some? <==> key(r) == k && (r.acao == "entrada" || r.acao == "saida"))
    ensures FirstSeen(rows, key, k).None? && FirstSeen(rows + [r], key, k).Some? ==>
      FirstSeen(rows + [r], key, k).value == |rows|
  {
    assert (rows + [r])[..|rows|] == rows;
  }

  // ---------------------------------------------------------------------------
  // the summary

  /** One element of the report's `data`: a stay with its `tempo_ocupacao`. */
  datatype Line = Line(stay: Stay, tempoOcupacao: string)

  /** The report's `resumo`. */
  datatype Resumo = Resumo(entradas: nat, saidas: nat, media: string)

  /** The text of a cell as `createFromFormat` receives it; PHP passes null as "". */
  function CellText(c: Cell): string
  {
    match c
    case Null => ""
    case Text(s) => s
  }

  /**
   * `createFromFormat` in either accepted format, then `getTimestamp`, on a
   * cell: an empty text, which is also what a null cell is passed as, parses
   * in neither format; any other text is up to `parse`.
   */
  function Timestamp(c: Cell, parse: string -> Option<int>): (r: Option<int>)
    ensures CellText(c) == "" ==> r.None?
  {
    if CellText(c) == "" then None else parse(CellText(c))
  }

  /** A stay whose admission or discharge column is null has no duration. */
  lemma NullTimestampNoDuration(d: Stay, parse: string -> Option<int>)
    requires d.entrada == Null || d.saida == Null
    ensures DurationSeconds(d, parse).None? && TempoOcupacao(d, parse) == "-"
  {
  }

  /**
   * The seconds from admission to discharge, when the stay has both and both
   * parse (api.php:262-266); `parse` is `createFromFormat` in either format.
   */
  function DurationSeconds(d: Stay, parse: string -> Option<int>): (r: Option<int>)
    ensures r.Some? <==>
      d.entrada != Dash && d.saida != Dash && Timestamp(d.entrada, parse).Some? && Timestamp(d.saida, parse).Some?
  {
    if d.entrada != Dash && d.saida != Dash then
      var inicio := Timestamp(d.entrada, parse);
      var fim := Timestamp(d.saida, parse);
      if inicio.Some? && fim.Some? then Some(fim.value - inicio.value) else None
    else None
  }

  lemma DurationOf(d: Stay, parse: string -> Option<int>, inicio: int, fim: int)
    requires d.entrada != Dash && d.saida != Dash
    requires Timestamp(d.entrada, parse) == Some(inicio) && Timestamp(d.saida, parse) == Some(fim)
    ensures DurationSeconds(d, parse) == Some(fim - inicio)
  {
  }

  /** `round($secs / 3600, 1)`, in tenths of an hour. */
  function HoursTenths(secs: int): (t: int)
    ensures 2 * Abs(secs - t * 360) <= 360
  {
    RoundHalfAwayDiv(secs, 360)
  }

  /** `$d['tempo_ocupacao']`. */
  function TempoOcupacao(d: Stay, parse: string -> Option<int>): string
  {
    match DurationSeconds(d, parse)
    case Some(secs) => RenderTenths(HoursTenths(secs), secs < 0) + "h"
    case None => "-"
  }

  /** The report's `data`: every stay with its `tempo_ocupacao`, in order. */
  function Lines(stays: seq<Stay>, parse: string -> Option<int>): (r: seq<Line>)
    ensures |r| == |stays|
  {
    if stays == [] then []
    else
      var d := stays[|stays| - 1];
      Lines(stays[..|stays| - 1], parse) + [Line(d, TempoOcupacao(d, parse))]
  }

  /** Line `i` of the report shows stay `i` and its own duration. */
  lemma {:induction false} LinesAt(stays: seq<Stay>, parse: string -> Option<int>, i: nat)
    requires i < |stays|
    ensures Lines(stays, parse)[i] == Line(stays[i], TempoOcupacao(stays[i], parse))
  {
    if i < |stays| - 1 {
      LinesAt(stays[..|stays| - 1], parse, i);
    }
  }

  function CountEntradas(stays: seq<Stay>): nat
  {
    if stays == [] then 0
    else CountEntradas(stays[..|stays| - 1]) + (if stays[|stays| - 1].entrada != Dash then 1 else 0)
  }

  function CountSaidas(stays: seq<Stay>): nat
  {
    if stays == [] then 0
    else CountSaidas(stays[..|stays| - 1]) + (if stays[|stays| - 1].saida != Dash then 1 else 0)
  }

  /** The rounded durations, in tenths of an hour, of the stays that have one, in order. */
  function Durations(stays: seq<Stay>, parse: string -> Option<int>): seq<int>
  {
    if stays == [] then []
    else
      var d := stays[|stays| - 1];
      Durations(stays[..|stays| - 1], parse) +
        (match DurationSeconds(d, parse) case Some(secs) => [HoursTenths(secs)] case None => [])
  }

  function Sum(xs: seq<int>): int
  {
    if xs == [] then 0 else Sum(xs[..|xs| - 1]) + xs[|xs| - 1]
  }

  /** `round($totalHoras / $cont, 1)`, in tenths of an hour. */
  function MeanTenths(tenths: seq<int>): int
    requires |tenths| > 0
  {
    RoundHalfAwayDiv(Sum(tenths), |tenths|)
  }

  /** `$media`: the rounded mean of the durations, or "0h" when no stay has one. */
  function Media(tenths: seq<int>): string
  {
    if |tenths| > 0 then RenderTenths(MeanTenths(tenths), Sum(tenths) < 0) + "h" else "0h"
  }

  function Summary(stays: seq<Stay>, parse: string -> Option<int>): Resumo
  {
    Resumo(CountEntradas(stays), CountSaidas(stays), Media(Durations(stays, parse)))
  }

  /** The loop at api.php:253-277 and the mean at api.php:279. */
  method Summarize(stays: seq<Stay>, parse: string -> Option<int>) returns (data: seq<Line>, resumo: Resumo)
    ensures data == Lines(stays, parse)
    ensures resumo == Summary(stays, parse)
  {
    var entradas := 0;
    var saidas := 0;
    var totalHoras := 0;
    var cont := 0;
    data := [];
    ghost var tenths: seq<int> := [];
    var n := 0;
    while n < |stays|
      invariant 0 <= n <= |stays|
      invariant data == Lines(stays[..n], parse)
      invariant entradas == CountEntradas(stays[..n]) && saidas == CountSaidas(stays[..n])
      invariant tenths == Durations(stays[..n], parse)
      invariant totalHoras == Sum(tenths) && cont == |tenths|
    {
      var d := stays[n];
      SummaryStep(stays, n, parse);
      if d.entrada != Dash {
        entradas := entradas + 1;
      }
      if d.saida != Dash {
        saidas := saidas + 1;
      }
      var tempo, diffHoras := Tempo(d, parse);
      if diffHoras.Some? {
        totalHoras := totalHoras + diffHoras.value;
        cont := cont + 1;
        SumAppend(tenths, diffHoras.value);
        tenths := tenths + [diffHoras.value];
      }
      data := data + [Line(d, tempo)];
      n := n + 1;
    }
    assert stays[..n] == stays;
    var media := if cont > 0 then RenderTenths(RoundHalfAwayDiv(totalHoras, cont), totalHoras < 0) + "h" else "0h";
    assert media == Media(tenths);
    resumo := Resumo(entradas, saidas, media);
  }

  /**
   * The duration part of the loop body (api.php:259-275): `tempo_ocupacao`
   * and the rounded hours it adds to the total, when the stay has both
   * timestamps and both parse.
   */
  method Tempo(d: Stay, parse: string -> Option<int>) returns (tempo: string, diffHoras: Option<int>)
    ensures tempo == TempoOcupacao(d, parse)
    ensures diffHoras.Some? <==> DurationSeconds(d, parse).Some?
    ensures diffHoras.Some? ==> diffHoras.value == HoursTenths(DurationSeconds(d, parse).value)
  {
    tempo := "-";
    diffHoras := None;
    if d.entrada != Dash && d.saida != Dash {
      var inicio := Timestamp(d.entrada, parse);
      var fim := Timestamp(d.saida, parse);
      if inicio.Some? && fim.Some? {
        var secs := fim.value - inicio.value;
        DurationOf(d, parse, inicio.value, fim.value);
        diffHoras := Some(RoundHalfAwayDiv(secs, 360));
        tempo := RenderTenths(diffHoras.value, secs < 0) + "h";
      }
    }
  }

  lemma SumAppend(xs: seq<int>, x: int)
    ensures Sum(xs + [x]) == Sum(xs) + x
  {
    assert (xs + [x])[..|xs|] == xs;
  }

  /** What one more stay adds to each of the summary's specifications. */
  lemma SummaryStep(stays: seq<Stay>, n: nat, parse: string -> Option<int>)
    requires n < |stays|
    ensures Lines(stays[..n + 1], parse) == Lines(stays[..n], parse) + [Line(stays[n], TempoOcupacao(stays[n], parse))]
    ensures CountEntradas(stays[..n + 1]) == CountEntradas(stays[..n]) + if stays[n].entrada != Dash then 1 else 0
    ensures CountSaidas(stays[..n + 1]) == CountSaidas(stays[..n]) + if stays[n].saida != Dash then 1 else 0
    ensures Durations(stays[..n + 1], parse) == Durations(stays[..n], parse) +
      match DurationSeconds(stays[n], parse) case Some(secs) => [HoursTenths(secs)] case None => []
  {
    assert stays[..n + 1][..n] == stays[..n];
  }

  /** `array_values($dados)`. */
  function Values<K(==)>(m: Stays<K>): (r: seq<Stay>)
    requires Ordered(m)
    ensures |r| == |m.keys|
    ensures forall i :: 0 <= i < |m.keys| ==> r[i] == m.dados[m.keys[i]]
  {
    seq(|m.keys|, i requires 0 <= i < |m.keys| => m.dados[m.keys[i]])
  }

  /**
   * The 'relatorio' answer for an already filtered and sorted audit log: the
   * stays in first-appearance order with their durations, and the summary.
   */
  method Relatorio(rows: seq<AuditEntry>, parse: string -> Option<int>) returns (data: seq<Line>, resumo: Resumo)
    ensures data == Lines(Values(Pairing(rows, PairKey)), parse)
    ensures resumo == Summary(Values(Pairing(rows, PairKey)), parse)
  {
    var keys, dados := Reconstruct(rows, PairKey);
    data, resumo := Summarize(Values(Stays(keys, dados)), parse);
  }

  /**
   * The report has one line per key, and line `i` shows the stay the log
   * describes for the `i`-th key (keys in first-appearance order, see
   * `PairingOrder`), with that stay's own `tempo_ocupacao`.
   */
  lemma ReportLines(rows: seq<AuditEntry>, parse: string -> Option<int>, i: nat)
    requires i < |Pairing(rows, PairKey).keys|
    ensures |Lines(Values(Pairing(rows, PairKey)), parse)| == |Pairing(rows, PairKey).keys|
    ensures var k := Pairing(rows, PairKey).keys[i];
      ReferenceStay(rows, PairKey, k).Some? &&
      Lines(Values(Pairing(rows, PairKey)), parse)[i] ==
        Line(ReferenceStay(rows, PairKey, k).value, TempoOcupacao(ReferenceStay(rows, PairKey, k).value, parse))
  {
    var m := Pairing(rows, PairKey);
    var k := m.keys[i];
    assert k in m.dados;
    PairingMatchesReference(rows, PairKey, k);
    LinesAt(Values(m), parse, i);
  }

  // ---------------------------------------------------------------------------
  // what the summary promises

  /** `entradas` counts the stays whose admission is not the placeholder. */
  lemma CountEntradasCounts(stays: seq<Stay>)
    ensures CountEntradas(stays) == |set i | 0 <= i < |stays| && stays[i].entrada != Dash|
  {
    EntradasUpTo(stays, |stays|);
    assert stays[..|stays|] == stays;
  }

  lemma {:induction false} EntradasUpTo(stays: seq<Stay>, n: nat)
    requires n <= |stays|
    ensures CountEntradas(stays[..n]) == |set i | 0 <= i < n && stays[i].entrada != Dash|
  {
    if n > 0 {
      EntradasUpTo(stays, n - 1);
      EntradasStep(stays, n);
      EntradasSetStep(stays, n);
    }
  }

  lemma EntradasStep(stays: seq<Stay>, n: nat)
    requires 0 < n <= |stays|
    ensures CountEntradas(stays[..n]) == CountEntradas(stays[..n - 1]) + if stays[n - 1].entrada != Dash then 1 else 0
  {
    assert stays[..n][..n - 1] == stays[..n - 1];
  }

  lemma EntradasSetStep(stays: seq<Stay>, n: nat)
    requires 0 < n <= |stays|
    ensures |set i | 0 <= i < n && stays[i].entrada != Dash| ==
      |set i | 0 <= i < n - 1 && stays[i].entrada != Dash| + if stays[n - 1].entrada != Dash then 1 else 0
  {
    var before := set i | 0 <= i < n - 1 && stays[i].entrada != Dash;
    var after := set i | 0 <= i < n && stays[i].entrada != Dash;
    var last := if stays[n - 1].entrada != Dash then {n - 1} else {};
    forall i | i in after ensures i in before + last {
      if i < n - 1 {
        assert i in before;
      }
    }
    assert after == before + last;
    assert before * last == {};
  }

  /** `saidas` counts the stays whose discharge is not the placeholder. */
  lemma CountSaidasCounts(stays: seq<Stay>)
    ensures CountSaidas(stays) == |set i | 0 <= i < |stays| && stays[i].saida != Dash|
  {
    SaidasUpTo(stays, |stays|);
    assert stays[..|stays|] == stays;
  }

  lemma {:induction false} SaidasUpTo(stays: seq<Stay>, n: nat)
    requires n <= |stays|
    ensures CountSaidas(stays[..n]) == |set i | 0 <= i < n && stays[i].saida != Dash|
  {
    if n > 0 {
      SaidasUpTo(stays, n - 1);
      SaidasStep(stays, n);
      SaidasSetStep(stays, n);
    }
  }

  lemma SaidasStep(stays: seq<Stay>, n: nat)
    requires 0 < n <= |stays|
    ensures CountSaidas(stays[..n]) == CountSaidas(stays[..n - 1]) + if stays[n - 1].saida != Dash then 1 else 0
  {
    assert stays[..n][..n - 1] == stays[..n - 1];
  }

  lemma SaidasSetStep(stays: seq<Stay>, n: nat)
    requires 0 < n <= |stays|
    ensures |set i | 0 <= i < n && stays[i].saida != Dash| ==
      |set i | 0 <= i < n - 1 && stays[i].saida != Dash| + if stays[n - 1].saida != Dash then 1 else 0
  {
    var before := set i | 0 <= i < n - 1 && stays[i].saida != Dash;
    var after := set i | 0 <= i < n && stays[i].saida != Dash;
    var last := if stays[n - 1].saida != Dash then {n - 1} else {};
    forall i | i in after ensures i in before + last {
      if i < n - 1 {
        assert i in before;
      }
    }
    assert after == before + last;
    assert before * last == {};
  }

  /** `$cont` counts the stays that have a duration. */
  lemma DurationsCounts(stays: seq<Stay>, parse: string -> Option<int>)
    ensures |Durations(stays, parse)| == |set i | 0 <= i < |stays| && DurationSeconds(stays[i], parse).Some?|
  {
    DurationsUpTo(stays, parse, |stays|);
    assert stays[..|stays|] == stays;
  }

  lemma {:induction false} DurationsUpTo(stays: seq<Stay>, parse: string -> Option<int>, n: nat)
    requires n <= |stays|
    ensures |Durations(stays[..n], parse)| == |set i | 0 <= i < n && DurationSeconds(stays[i], parse).Some?|
  {
    if n > 0 {
      DurationsUpTo(stays, parse, n - 1);
      DurationsStep(stays, parse, n);
      DurationsSetStep(stays, parse, n);
    }
  }

  lemma DurationsStep(stays: seq<Stay>, parse: string -> Option<int>, n: nat)
    requires 0 < n <= |stays|
    ensures |Durations(stays[..n], parse)| == |Durations(stays[..n - 1], parse)| + if DurationSeconds(stays[n - 1], parse).Some? then 1 else 0
  {
    assert stays[..n][..n - 1] == stays[..n - 1];
  }

  lemma DurationsSetStep(stays: seq<Stay>, parse: string -> Option<int>, n: nat)
    requires 0 < n <= |stays|
    ensures |set i | 0 <= i < n && DurationSeconds(stays[i], parse).Some?| ==
      |set i | 0 <= i < n - 1 && DurationSeconds(stays[i], parse).Some?| + if DurationSeconds(stays[n - 1], parse).Some? then 1 else 0
  {
    var before := set i | 0 <= i < n - 1 && DurationSeconds(stays[i], parse).Some?;
    var after := set i | 0 <= i < n && DurationSeconds(stays[i], parse).Some?;
    var last := if DurationSeconds(stays[n - 1], parse).Some? then {n - 1} else {};
    forall i | i in after ensures i in before + last {
      if i < n - 1 {
        assert i in before;
      }
    }
    assert after == before + last;
    assert before * last == {};
  }

  /** Neither count exceeds the number of stays, and a stay with a duration counts in both. */
  lemma {:induction false} CountsBounded(stays: seq<Stay>, parse: string -> Option<int>)
    ensures CountEntradas(stays) <= |stays| && CountSaidas(stays) <= |stays|
    ensures |Durations(stays, parse)| <= CountEntradas(stays)
    ensures |Durations(stays, parse)| <= CountSaidas(stays)
  {
    if stays != [] {
      CountsBounded(stays[..|stays| - 1], parse);
    }
  }

  /** A stay is given a duration exactly when both timestamps are present and parse. */
  lemma TempoDefined(d: Stay, parse: string -> Option<int>)
    ensures TempoOcupacao(d, parse) != "-" <==>
      d.entrada != Dash && d.saida != Dash && Timestamp(d.entrada, parse).Some? && Timestamp(d.saida, parse).Some?
  {
    var t := TempoOcupacao(d, parse);
    if DurationSeconds(d, parse).Some? {
      assert t[|t| - 1] == 'h';
    }
  }

  /** `media` is "0h" when no stay has a duration. */
  lemma MediaWithoutDurations(stays: seq<Stay>, parse: string -> Option<int>)
    requires forall i :: 0 <= i < |stays| ==> DurationSeconds(stays[i], parse).None?
    ensures Summary(stays, parse).media == "0h"
  {
    DurationsCounts(stays, parse);
    assert (set i | 0 <= i < |stays| && DurationSeconds(stays[i], parse).Some?) == {};
  }

  lemma {:induction false} SumBounds(tenths: seq<int>, lo: int, hi: int)
    requires forall i :: 0 <= i < |tenths| ==> lo <= tenths[i] <= hi
    ensures |tenths| * lo <= Sum(tenths) <= |tenths| * hi
  {
    if tenths != [] {
      var init := tenths[..|tenths| - 1];
      SumBounds(init, lo, hi);
      MulSucc(|init|, lo);
      MulSucc(|init|, hi);
    }
  }

  lemma MulSucc(m: nat, x: int)
    ensures (m + 1) * x == m * x + x
  {
  }

  /** The mean lies within the bounds of the durations it averages. */
  lemma MeanWithin(tenths: seq<int>, lo: int, hi: int)
    requires |tenths| > 0
    requires forall i :: 0 <= i < |tenths| ==> lo <= tenths[i] <= hi
    ensures lo <= MeanTenths(tenths) <= hi
  {
    SumBounds(tenths, lo, hi);
    RoundHalfAwayDivBounds(Sum(tenths), |tenths|, lo, hi);
  }

  /** Twelve hours between admission and discharge print as "12h": PHP drops the ".0" of 12.0. */
  lemma TwelveHours(d: Stay, parse: string -> Option<int>, t: int)
    requires d.entrada != Dash && d.saida != Dash
    requires Timestamp(d.entrada, parse) == Some(t) && Timestamp(d.saida, parse) == Some(t + 43200)
    ensures TempoOcupacao(d, parse) == "12h"
  {
    assert HoursTenths(43200) == 120;
    assert NatToString(12) == "12";
  }

  // ---------------------------------------------------------------------------
  // the report of an admission followed by its discharge

  /**
   * The audit rows written by an accepted 'add' and by the 'delete' of that
   * patient pair into a single stay running from the admission time to the
   * discharge time.
   */
  lemma AdmitThenDischarge(p: Patient, saida: string)
    ensures var m := Pairing([AdmissionAudit(p), DischargeAudit(p, saida)], PairKey);
      m.keys == [Key(p.nome, p.leito)] &&
      m.dados[Key(p.nome, p.leito)] == Stay(p.nome, p.local, p.leito, Text(p.entrada), Text(saida), p.hospital)
  {
    var rows := [AdmissionAudit(p), DischargeAudit(p, saida)];
    var k := Key(p.nome, p.leito);
    var a := [AdmissionAudit(p)];
    assert rows[..1] == a;
    assert a[..0] == [];
    var first := Pairing(a, PairKey);
    assert Pairing(a[..0], PairKey) == Stays([], map[]);
    assert AdmissionAudit(p).acao == "entrada" && PairKey(AdmissionAudit(p)) == k;
    assert first == Step(Stays([], map[]), AdmissionAudit(p), k);
    assert first == Stays([k], map[k := Opened(AdmissionAudit(p))]);
    assert Pairing(rows, PairKey) == Step(first, DischargeAudit(p, saida), k);
  }

  // ---------------------------------------------------------------------------
  // the key api.php builds, and the one it stands for

  /** Under the pair key every stay carries the name and bed it is filed under. */
  lemma StayMatchesItsKey(rows: seq<AuditEntry>, k: Key)
    requires k in Pairing(rows, PairKey).dados
    ensures Pairing(rows, PairKey).dados[k].nome == k.nome && Pairing(rows, PairKey).dados[k].leito == k.leito
  {
    PairingMatchesReference(rows, PairKey, k);
  }

  function EntradaRow(nome: string, leito: int): AuditEntry
  {
    AuditEntry(nome, leito, "UTI", Text("2024-01-01 08:00:00"), Null, "entrada", Null, "2024-01-01 08:00:00")
  }

  function SaidaRow(nome: string, leito: int): AuditEntry
  {
    AuditEntry(nome, leito, "UTI", Text("2024-01-01 08:00:00"), Text("2024-01-01 20:00:00"), "saida", Null, "2024-01-01 20:00:00")
  }

  /** The concatenated key cannot tell patient "x" in bed -1 from patient "x-" in bed 1. */
  lemma ConcatKeyCollides()
    ensures ConcatKey(EntradaRow("x", -1)) == ConcatKey(SaidaRow("x-", 1))
    ensures PairKey(EntradaRow("x", -1)) != PairKey(SaidaRow("x-", 1))
  {
    assert IntToString(-1) == "-1" by {
      assert NatToString(1) == "1";
    }
    assert IntToString(1) == "1";
  }

  /**
   * So the discharge of "x-" from bed 1 closes the stay of "x" in bed -1: the
   * as-written report shows one stay with the wrong discharge, where the pair
   * key keeps two.
   */
  lemma ConcatKeyMergesStays()
    ensures |Pairing([EntradaRow("x", -1), SaidaRow("x-", 1)], ConcatKey).keys| == 1
    ensures Pairing([EntradaRow("x", -1), SaidaRow("x-", 1)], ConcatKey).dados[ConcatKey(EntradaRow("x", -1))].nome == "x"
    ensures |Pairing([EntradaRow("x", -1), SaidaRow("x-", 1)], PairKey).keys| == 2
  {
    var rows := [EntradaRow("x", -1), SaidaRow("x-", 1)];
    ConcatKeyCollides();
    assert rows[..1] == [EntradaRow("x", -1)];
    assert rows[..1][..0] == [];
  }
}
