/**
 * A worked case: a chair (value 10) needs two units of wood (stock 10) and
 * one screw (stock 3); a table (value 20) needs one screw; a lamp has no
 * entries. Both the chair and the table may use all three screws, since
 * nothing is allocated between products; the lamp is dropped, and the table
 * ranks first.
 */
module ProductionExamples {

  import opened Wrappers
  import opened Model
  import opened SuggestionDto
  import opened Ranking
  import opened Production

  const Chair := Product(1, "P1", "Chair", 10.0)
  const Table := Product(2, "P2", "Table", 20.0)
  const Lamp := Product(3, "P3", "Lamp", 5.0)
  const Wood := RawMaterial(7, "M1", "Wood", 10)
  const Screw := RawMaterial(8, "M2", "Screw", 3)
  const Bom := [ProductRawMaterial(1, 7, 2), ProductRawMaterial(1, 8, 1), ProductRawMaterial(2, 8, 1)]

  lemma ExampleStock()
    ensures StockMap([Wood, Screw]) == map[7 := 10][8 := 3]
  {
    assert [Wood, Screw][..1] == [Wood] && [Wood][..0] == [];
    assert StockMap([Wood]) == map[7 := 10];
  }

  lemma ExampleEntries()
    ensures EntriesOf(Bom, 1) == [Bom[0], Bom[1]]
    ensures EntriesOf(Bom, 2) == [Bom[2]]
    ensures EntriesOf(Bom, 3) == []
  {
    var b1, b2 := [Bom[0]], [Bom[0], Bom[1]];
    assert Bom[..2] == b2 && b2[..1] == b1 && b1[..0] == [];
    forall id
      ensures EntriesOf(Bom, id) == EntriesOf(b2, id) + (if id == 2 then [Bom[2]] else [])
      ensures EntriesOf(b2, id) == EntriesOf(b1, id) + (if id == 1 then [Bom[1]] else [])
      ensures EntriesOf(b1, id) == (if id == 1 then [Bom[0]] else [])
    {
    }
  }

  lemma ExampleMaxUnits()
    ensures MaxUnits([Bom[0], Bom[1]], map[7 := 10][8 := 3]) == Some(3)
    ensures MaxUnits([Bom[2]], map[7 := 10][8 := 3]) == Some(3)
  {
    var stock := map[7 := 10][8 := 3];
    assert [Bom[0], Bom[1]][..1] == [Bom[0]] && [Bom[0]][..0] == [] && [Bom[2]][..0] == [];
    assert Quotient(Bom[0], stock) == 5 && Quotient(Bom[1], stock) == 3 && Quotient(Bom[2], stock) == 3;
    assert MaxUnits([Bom[0]], stock) == Some(5);
  }

  lemma ExampleChairCandidate()
    ensures Candidate(Chair, map[7 := 10][8 := 3], Bom) == Some(ProductionSuggestion(Chair, 3, 30.0))
  {
    ExampleEntries();
    ExampleMaxUnits();
  }

  lemma ExampleTableCandidate()
    ensures Candidate(Table, map[7 := 10][8 := 3], Bom) == Some(ProductionSuggestion(Table, 3, 60.0))
  {
    ExampleEntries();
    ExampleMaxUnits();
  }

  lemma ExampleLampCandidate()
    ensures Candidate(Lamp, map[7 := 10][8 := 3], Bom) == None
  {
    ExampleEntries();
  }

  lemma ExampleCandidates()
    ensures Candidates([Chair, Table, Lamp], map[7 := 10][8 := 3], Bom)
         == [ProductionSuggestion(Chair, 3, 30.0), ProductionSuggestion(Table, 3, 60.0)]
  {
    ExampleChairCandidate();
    ExampleTableCandidate();
    ExampleLampCandidate();
    var stock := map[7 := 10][8 := 3];
    var ps := [Chair, Table, Lamp];
    var pick := p => Candidate(p, stock, Bom);
    assert pick(Chair) == Some(ProductionSuggestion(Chair, 3, 30.0));
    assert pick(Table) == Some(ProductionSuggestion(Table, 3, 60.0));
    assert pick(Lamp) == None;
    assert ps[..2] == [Chair, Table] && ps[..2][..1] == [Chair] && [Chair][..0] == [];
    assert Collect([Chair], pick) == [ProductionSuggestion(Chair, 3, 30.0)];
    assert Collect([Chair, Table], pick)
        == [ProductionSuggestion(Chair, 3, 30.0)] + [ProductionSuggestion(Table, 3, 60.0)];
    assert Collect(ps, pick) == Collect([Chair, Table], pick) + [];
  }

  /** The endpoint's answer for the worked case. */
  lemma ExampleChairTableLamp()
    ensures SuggestedProduction([Chair, Table, Lamp], [Wood, Screw], Bom)
         == [ProductionSuggestion(Table, 3, 60.0), ProductionSuggestion(Chair, 3, 30.0)]
  {
    ExampleStock();
    ExampleCandidates();
    var c := [ProductionSuggestion(Chair, 3, 30.0), ProductionSuggestion(Table, 3, 60.0)];
    assert c[..1] == [c[0]] && [c[0]][..0] == [];
    assert SortByValue([c[0]]) == [c[0]];
    assert SortByValue(c) == InsertByValue(c[1], [c[0]]);
  }
}
