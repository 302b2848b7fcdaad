/**
 * The 'list' request (api.php:54-95): the fixed sectors of the ward, each with
 * its number of beds, are laid out bed by bed, and every bed shows either the
 * patient who occupies it or an empty, free slot.
 */
module BedGrid {
  import opened Wrappers
  import opened Records
  import opened Php
  import opened Requests

  /** A sector of the ward and its number of beds. */
  datatype Sector = Sector(name: string, beds: nat)

  /** The sectors in display order, as configured in api.php. */
  const Setores: seq<Sector> := [
    Sector("Observação Masculina", 5),
    Sector("Observação Feminina", 5),
    Sector("Observação Pediátrica", 5),
    Sector("Isolamento Adulto", 1),
    Sector("Isolamento Pediátrico", 1)
  ]

  /** One entry of the grid: the occupant's whole row, or a free bed. */
  datatype Slot = Occupied(patient: Patient) | Free(bed: int, sector: string)
  {
    function Id(): Option<int>
    {
      if Occupied? then Some(patient.id) else None
    }

    function Nome(): string
    {
      if Occupied? then patient.nome else ""
    }

    function Leito(): int
    {
      if Occupied? then patient.leito else bed
    }

    function Local(): string
    {
      if Occupied? then patient.local else sector
    }

    function Status(): string
    {
      if Occupied? then patient.status else "livre"
    }
  }

  /** Row `p` sits in bed `i` of sector `local`: exact name, integer bed number. */
  predicate Matches(p: Patient, local: string, i: int)
  {
    p.local == local && p.leito == i
  }

  /** The position of the first row that sits in bed `i` of `local`, if any. */
  function FirstMatch(ocupados: seq<Patient>, local: string, i: int): (r: Option<nat>)
    ensures r.Some? ==> r.value < |ocupados| && Matches(ocupados[r.value], local, i)
    ensures r.Some? ==> forall j :: 0 <= j < r.value ==> !Matches(ocupados[j], local, i)
    ensures r.None? ==> forall j :: 0 <= j < |ocupados| ==> !Matches(ocupados[j], local, i)
  {
    if ocupados == [] then None
    else if Matches(ocupados[0], local, i) then Some(0)
    else match FirstMatch(ocupados[1..], local, i)
      case Some(k) => Some(k + 1)
      case None => None
  }

  /** The slot of bed `i` of `local`: the first matching row marked 'ocupado', or a free bed. */
  function SlotFor(ocupados: seq<Patient>, local: string, i: int): (s: Slot)
    ensures s.Local() == local && s.Leito() == i
  {
    match FirstMatch(ocupados, local, i)
    case Some(j) => Occupied(ocupados[j].(status := "ocupado"))
    case None => Free(i, local)
  }

  /**
   * A bed shows a patient exactly when some row sits in it, and then it shows
   * the first such row with its status set to 'ocupado'; otherwise it is an
   * empty slot with no id, an empty name and status 'livre'.
   */
  lemma SlotForMeaning(ocupados: seq<Patient>, local: string, i: int)
    ensures SlotFor(ocupados, local, i).Occupied? <==> exists j :: 0 <= j < |ocupados| && Matches(ocupados[j], local, i)
    ensures SlotFor(ocupados, local, i).Occupied? ==> exists j :: (0 <= j < |ocupados| && Matches(ocupados[j], local, i) &&
      (forall k :: 0 <= k < j ==> !Matches(ocupados[k], local, i)) &&
      SlotFor(ocupados, local, i).patient == ocupados[j].(status := "ocupado"))
    ensures SlotFor(ocupados, local, i).Occupied? ==> SlotFor(ocupados, local, i).Status() == "ocupado"
    ensures SlotFor(ocupados, local, i).Free? ==>
      SlotFor(ocupados, local, i).Id() == None && SlotFor(ocupados, local, i).Nome() == "" &&
      SlotFor(ocupados, local, i).Status() == "livre"
  {
  }

  /** The slots of beds 1..n of one sector, in ascending bed order. */
  function SectorSlots(ocupados: seq<Patient>, local: string, n: nat): (r: seq<Slot>)
    ensures |r| == n
  {
    if n == 0 then [] else SectorSlots(ocupados, local, n - 1) + [SlotFor(ocupados, local, n)]
  }

  /** Position `k` of a sector's slots is the slot of bed `k + 1`. */
  lemma {:induction false} SectorSlotsAt(ocupados: seq<Patient>, local: string, n: nat, k: nat)
    requires k < n
    ensures SectorSlots(ocupados, local, n)[k] == SlotFor(ocupados, local, k + 1)
  {
    if k < n - 1 {
      SectorSlotsAt(ocupados, local, n - 1, k);
    }
  }

  /** The number of beds of the first `n` sectors: where sector `n` starts in the grid. */
  function Offset(setores: seq<Sector>, n: nat): nat
    requires n <= |setores|
  {
    if n == 0 then 0 else Offset(setores, n - 1) + setores[n - 1].beds
  }

  /** The number of beds of all the sectors together. */
  function TotalBeds(setores: seq<Sector>): nat
  {
    Offset(setores, |setores|)
  }

  /** The grid of the first `n` sectors, each laid out bed by bed. */
  function GridPrefix(setores: seq<Sector>, ocupados: seq<Patient>, n: nat): (g: seq<Slot>)
    requires n <= |setores|
    ensures |g| == Offset(setores, n)
  {
    if n == 0 then []
    else GridPrefix(setores, ocupados, n - 1) + SectorSlots(ocupados, setores[n - 1].name, setores[n - 1].beds)
  }

  /** The grid: every sector in order, each laid out bed by bed. */
  function Grid(setores: seq<Sector>, ocupados: seq<Patient>): (g: seq<Slot>)
    ensures |g| == TotalBeds(setores)
  {
    GridPrefix(setores, ocupados, |setores|)
  }

  /** Sector names are keys of a PHP array, so no two are equal. */
  predicate DistinctNames(setores: seq<Sector>)
  {
    forall a, b :: 0 <= a < b < |setores| ==> setores[a].name != setores[b].name
  }

  /** Sectors further on start further on. */
  lemma {:induction false} OffsetsGrow(setores: seq<Sector>, a: nat, b: nat)
    requires a <= b <= |setores|
    ensures Offset(setores, a) <= Offset(setores, b)
    decreases b - a
  {
    if a < b {
      OffsetsGrow(setores, a, b - 1);
    }
  }

  /** Bed `i` of sector number `s` sits at position Offset(setores, s) + i - 1 of the grid. */
  lemma GridAt(setores: seq<Sector>, ocupados: seq<Patient>, s: nat, i: nat)
    requires s < |setores| && 1 <= i <= setores[s].beds
    ensures Offset(setores, s) + i - 1 < |Grid(setores, ocupados)|
    ensures Grid(setores, ocupados)[Offset(setores, s) + i - 1] == SlotFor(ocupados, setores[s].name, i)
  {
    GridPrefixAt(setores, ocupados, |setores|, s, i);
  }

  lemma {:induction false} GridPrefixAt(setores: seq<Sector>, ocupados: seq<Patient>, n: nat, s: nat, i: nat)
    requires s < n <= |setores| && 1 <= i <= setores[s].beds
    ensures Offset(setores, s) + i - 1 < Offset(setores, n)
    ensures GridPrefix(setores, ocupados, n)[Offset(setores, s) + i - 1] == SlotFor(ocupados, setores[s].name, i)
    decreases n
  {
    var p := Offset(setores, s) + i - 1;
    var a := GridPrefix(setores, ocupados, n - 1);
    var b := SectorSlots(ocupados, setores[n - 1].name, setores[n - 1].beds);
    if s < n - 1 {
      GridPrefixAt(setores, ocupados, n - 1, s, i);
      KeepIndex(a, b, p);
    } else {
      SectorSlotsAt(ocupados, setores[s].name, setores[s].beds, i - 1);
      AppendIndex(a, b, p, i);
    }
  }

  lemma KeepIndex(a: seq<Slot>, b: seq<Slot>, p: nat)
    requires p < |a|
    ensures (a + b)[p] == a[p]
  {
  }

  lemma AppendIndex(a: seq<Slot>, b: seq<Slot>, p: nat, i: nat)
    requires 1 <= i <= |b| && p == |a| + i - 1
    ensures (a + b)[p] == b[i - 1]
  {
  }

  /** Every position of the grid is the slot of one (sector, bed) pair. */
  lemma GridPosition(setores: seq<Sector>, p: nat) returns (s: nat, i: nat)
    requires p < TotalBeds(setores)
    ensures s < |setores| && 1 <= i <= setores[s].beds
    ensures p == Offset(setores, s) + i - 1
  {
    s, i := PrefixPosition(setores, |setores|, p);
  }

  lemma {:induction false} PrefixPosition(setores: seq<Sector>, n: nat, p: nat) returns (s: nat, i: nat)
    requires n <= |setores| && p < Offset(setores, n)
    ensures s < n && 1 <= i <= setores[s].beds
    ensures p == Offset(setores, s) + i - 1
    decreases n
  {
    if p < Offset(setores, n - 1) {
      s, i := PrefixPosition(setores, n - 1, p);
    } else {
      s, i := n - 1, p - Offset(setores, n - 1) + 1;
    }
  }

  /** Different (sector, bed) pairs occupy different positions. */
  lemma GridPositionUnique(setores: seq<Sector>, s: nat, i: nat, t: nat, j: nat)
    requires s < |setores| && 1 <= i <= setores[s].beds
    requires t < |setores| && 1 <= j <= setores[t].beds
    requires Offset(setores, s) + i == Offset(setores, t) + j
    ensures s == t && i == j
  {
    if s < t {
      OffsetsGrow(setores, s + 1, t);
    } else if t < s {
      OffsetsGrow(setores, t + 1, s);
    }
  }

  /** With distinct sector names, no two slots of the grid are the same (sector, bed). */
  lemma GridSlotsDistinct(setores: seq<Sector>, ocupados: seq<Patient>, p: nat, q: nat)
    requires DistinctNames(setores)
    requires p < q < TotalBeds(setores)
    ensures Grid(setores, ocupados)[p].Local() != Grid(setores, ocupados)[q].Local() ||
            Grid(setores, ocupados)[p].Leito() != Grid(setores, ocupados)[q].Leito()
  {
    var s, i := GridPosition(setores, p);
    var t, j := GridPosition(setores, q);
    GridAt(setores, ocupados, s, i);
    GridAt(setores, ocupados, t, j);
    if s == t {
      assert i != j;
    } else {
      assert setores[s].name != setores[t].name;
    }
  }

  /** The configured ward has 17 beds under five distinct sector names. */
  lemma SetoresShape()
    ensures DistinctNames(Setores)
    ensures Offset(Setores, 3) == 15 && TotalBeds(Setores) == 17
  {
    assert Offset(Setores, 1) == 5;
    assert Offset(Setores, 2) == 10;
    assert Offset(Setores, 3) == 15;
    assert Offset(Setores, 4) == 16;
  }

  /** With nobody admitted, the adult isolation room shows its one bed free. */
  lemma EmptyWardIsolation()
    ensures |Grid(Setores, [])| == 17 && Grid(Setores, [])[15] == Free(1, "Isolamento Adulto")
  {
    SetoresShape();
    GridAt(Setores, [], 3, 1);
  }

  /**
   * An admitted patient shows in the grid at the sector and bed the request
   * named, as long as no earlier row of `pacientes` sits in that bed.
   */
  lemma AdmissionShownInGrid(input: Input, entrada: string, id: int, setores: seq<Sector>, s: nat, i: int, ocupados: seq<Patient>, j: nat)
    requires Add(input, entrada, id).Admitted?
    requires LeitoOf(input) == i && s < |setores| && setores[s].name == ToText(LocalOf(input)) && 1 <= i <= setores[s].beds
    requires j < |ocupados| && ocupados[j] == Add(input, entrada, id).patient
    requires forall k :: 0 <= k < j ==> !Matches(ocupados[k], setores[s].name, i)
    ensures Offset(setores, s) + i - 1 < |Grid(setores, ocupados)|
    ensures Grid(setores, ocupados)[Offset(setores, s) + i - 1] == Occupied(Add(input, entrada, id).patient)
  {
    var p := Add(input, entrada, id).patient;
    assert p.local == setores[s].name && p.leito == i && p.status == "ocupado";
    RowShownInGrid(setores, ocupados, s, i, j);
    assert ocupados[j].(status := "ocupado") == p;
  }

  /** A row shows in the grid at its own sector and bed unless an earlier row sits in that bed. */
  lemma RowShownInGrid(setores: seq<Sector>, ocupados: seq<Patient>, s: nat, i: int, j: nat)
    requires s < |setores| && 1 <= i <= setores[s].beds
    requires j < |ocupados| && Matches(ocupados[j], setores[s].name, i)
    requires forall k :: 0 <= k < j ==> !Matches(ocupados[k], setores[s].name, i)
    ensures Offset(setores, s) + i - 1 < |Grid(setores, ocupados)|
    ensures Grid(setores, ocupados)[Offset(setores, s) + i - 1] == Occupied(ocupados[j].(status := "ocupado"))
  {
    GridAt(setores, ocupados, s, i);
    FirstMatchAt(ocupados, setores[s].name, i, j);
  }

  /** A matching row with no matching row before it is the first match. */
  lemma FirstMatchAt(ocupados: seq<Patient>, local: string, i: int, j: nat)
    requires j < |ocupados| && Matches(ocupados[j], local, i)
    requires forall k :: 0 <= k < j ==> !Matches(ocupados[k], local, i)
    ensures FirstMatch(ocupados, local, i) == Some(j)
  {
    assert FirstMatch(ocupados, local, i).Some?;
  }

  /** The search of api.php:71-76: the first row in bed `i` of `local`, or none. */
  method FindOccupant(ocupados: seq<Patient>, local: string, i: int) returns (leitoOcupado: Option<Patient>)
    ensures leitoOcupado.Some? <==> FirstMatch(ocupados, local, i).Some?
    ensures leitoOcupado.Some? ==> leitoOcupado.value == ocupados[FirstMatch(ocupados, local, i).value]
  {
    leitoOcupado := None;
    var j := 0;
    while j < |ocupados|
      invariant 0 <= j <= |ocupados|
      invariant forall k :: 0 <= k < j ==> !Matches(ocupados[k], local, i)
    {
      if ocupados[j].local == local && ocupados[j].leito == i {
        leitoOcupado := Some(ocupados[j]);
        assert FirstMatch(ocupados, local, i) == Some(j);
        return;
      }
      j := j + 1;
    }
    assert FirstMatch(ocupados, local, i) == None;
  }

  /** One bed of api.php:70-89: the occupant found, marked 'ocupado', or a free slot. */
  method BedSlot(ocupados: seq<Patient>, local: string, i: int) returns (slot: Slot)
    ensures slot == SlotFor(ocupados, local, i)
  {
    var leitoOcupado := FindOccupant(ocupados, local, i);
    if leitoOcupado.Some? {
      slot := Occupied(leitoOcupado.value.(status := "ocupado"));
    } else {
      slot := Free(i, local);
    }
  }

  /**
   * The loop of api.php:66-91: for each sector, for each bed 1..qtd, scan the
   * occupied rows for the first match and append its row (status set to
   * 'ocupado') or a free slot.
   */
  method BuildGrid(setores: seq<Sector>, ocupados: seq<Patient>) returns (resultado: seq<Slot>)
    ensures resultado == Grid(setores, ocupados)
  {
    resultado := [];
    var s := 0;
    while s < |setores|
      invariant 0 <= s <= |setores|
      invariant resultado == GridPrefix(setores, ocupados, s)
    {
      var local := setores[s].name;
      var qtd := setores[s].beds;
      var i := 1;
      while i <= qtd
        invariant 1 <= i <= qtd + 1
        invariant resultado == GridPrefix(setores, ocupados, s) + SectorSlots(ocupados, local, i - 1)
      {
        var slot := BedSlot(ocupados, local, i);
        assert SectorSlots(ocupados, local, i) == SectorSlots(ocupados, local, i - 1) + [slot];
        resultado := resultado + [slot];
        i := i + 1;
      }
      s := s + 1;
    }
  }
}
