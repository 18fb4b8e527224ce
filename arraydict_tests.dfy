/** Concrete runs of the `ArrayDict` model on a two-column store of three
    rows, following the cases of tests/test_arraydict.py (with integer
    columns in place of the string and coordinate ones). */
module ArrayDictScenarios {
  import opened PyErrors
  import opened Dicts
  import opened ArrayDicts

  /** `{"id": [1, 2, 3], "type": [11, 12, 13]}` */
  function Atoms(): Store<int>
  {
    RawDict(["id", "type"], map["id" := [1, 2, 3], "type" := [11, 12, 13]])
  }

  /** `ad["id"]` is the column; an unknown name, alone or in a list,
      raises `KeyError`. */
  lemma GetNameScenario()
    ensures GetItem(Atoms(), Name("id")) == Ok(Column([1, 2, 3]))
    ensures GetItem(Atoms(), Name("invalid_key")) == Err(KeyError)
    ensures GetItem(Atoms(), Names(["invalid_key"])) == Err(KeyError)
  {
    assert Names(["invalid_key"]).ks[0] !in Atoms().vals;
  }

  /** `ad[1]` holds the second element of every column, as a one-element
      array; `ad[-1]` the last; `ad[3]` raises `IndexError`. */
  lemma GetRowScenario()
    ensures GetItem(Atoms(), Row(1)).Ok?
    ensures GetItem(Atoms(), Row(1)).value.d.vals == map["id" := [2], "type" := [12]]
    ensures GetItem(Atoms(), Row(-1)).value.d.vals == map["id" := [3], "type" := [13]]
    ensures GetItem(Atoms(), Row(3)) == Err(IndexError)
  {
    assert RowIndex(3, |Atoms().vals["id"]|).None?;
  }

  /** `ad[0:2]` holds the first two elements of every column. */
  lemma GetSpanScenario()
    ensures GetItem(Atoms(), Span(Some(0), Some(2))).value.d.vals == map["id" := [1, 2], "type" := [11, 12]]
  {
    assert Slice([1, 2, 3], Some(0), Some(2)) == [1, 2];
    assert Slice([11, 12, 13], Some(0), Some(2)) == [11, 12];
  }

  /** `{"id": [7, 8], "type": [17, 18]}` */
  function NewRows(): Store<int>
  {
    RawDict(["id", "type"], map["id" := [7, 8], "type" := [17, 18]])
  }

  /** `{"id": [1, 2], "type": [5]}` */
  function Ragged(): Store<int>
  {
    RawDict(["id", "type"], map["id" := [1, 2], "type" := [5]])
  }

  /** `{"type": [11, 12, 13], "id": [1, 2, 3]}` */
  function Swapped(): Store<int>
  {
    RawDict(["type", "id"], map["type" := [11, 12, 13], "id" := [1, 2, 3]])
  }

  /** `{"id": [1, 2], "type": [11, 12, 13]}` */
  function Short(): Store<int>
  {
    RawDict(["id", "type"], map["id" := [1, 2], "type" := [11, 12, 13]])
  }

  /** Writing two elements into the slice `0:2` of a three-element column
      replaces the first two. */
  lemma WriteSpanStep(col: seq<int>, src: seq<int>)
    requires |col| == 3 && |src| == 2
    ensures WriteAt(col, Span(Some(0), Some(2)), src) == Ok(src + [col[2]])
  {
    assert SpanStart(Some(0), 3) == 0 && SpanWidth(Some(0), Some(2), 3) == 2;
    assert col[..0] + src + col[2..] == src + [col[2]];
  }

  /** Both columns of the store fit the slice `0:2`. */
  lemma SpanFits(data: Store<int>, key: Index, src: Store<int>)
    requires data == Atoms() && key == Span(Some(0), Some(2)) && src == NewRows()
    ensures WriteAt(data.vals["id"], key, src.vals["id"]) == Ok([7, 8, 3])
    ensures WriteAt(data.vals["type"], key, src.vals["type"]) == Ok([17, 18, 13])
  {
    WriteSpanStep(data.vals["id"], src.vals["id"]);
    assert [7, 8] + [3] == [7, 8, 3];
    WriteSpanStep(data.vals["type"], src.vals["type"]);
    assert [17, 18] + [13] == [17, 18, 13];
  }

  /** So the write loop writes the two columns in turn and stops at the
      end. */
  lemma SetSpanColumns(data: Store<int>, key: Index, src: Store<int>)
    requires data == Atoms() && key == Span(Some(0), Some(2)) && src == NewRows()
    ensures Assign(data, key, TableValue(src)) ==
            Outcome(RawDict(data.keys, data.vals["id" := [7, 8, 3]]["type" := [17, 18, 13]]), None)
  {
    SpanFits(data, key, src);
    var w := Writes(data, key, src);
    assert w["id"] == Ok([7, 8, 3]) && w["type"] == Ok([17, 18, 13]);
    var d1 := WriteRowsNext(data, w, 0);
    var d2 := WriteRowsNext(d1, w, 1);
    assert WriteRowsFrom(d2, w, 2) == Outcome(d2, None);
    assert Assign(data, key, TableValue(src)) == WriteRowsFrom(data, w, 0);
    assert d2 == RawDict(data.keys, data.vals["id" := [7, 8, 3]]["type" := [17, 18, 13]]);
  }

  /** `ad[0:2] = ArrayDict({"id": [7, 8], "type": [17, 18]})` overwrites
      the first two rows and keeps the third. */
  lemma SetSpanScenario()
    ensures Assign(Atoms(), Span(Some(0), Some(2)), TableValue(NewRows())).raised.None?
    ensures Assign(Atoms(), Span(Some(0), Some(2)), TableValue(NewRows())).state.vals == map["id" := [7, 8, 3], "type" := [17, 18, 13]]
  {
    SetSpanColumns(Atoms(), Span(Some(0), Some(2)), NewRows());
    Overwritten("id", "type", [1, 2, 3], [11, 12, 13], [7, 8, 3], [17, 18, 13]);
  }

  /** Overwriting both entries of a two-entry map gives the map of the new
      values. */
  lemma Overwritten<V>(a: string, b: string, x0: V, y0: V, x: V, y: V)
    ensures map[a := x0, b := y0][a := x][b := y] == map[a := x, b := y]
  {
  }

  /** `ad[1] = ArrayDict({"id": [1, 2], "type": [5]})` cannot fit two
      elements into one position and raises `ValueError`. */
  lemma SetRowMismatchScenario()
    ensures Assign(Atoms(), Row(1), TableValue(Ragged())).raised == Some(ValueError)
  {
    assert WriteAt([1, 2, 3], Row(1), [1, 2]) == Err(ValueError);
  }

  /** Comparing with a dict that holds the same columns in another order
      gives `True`. */
  lemma EqualsScenario()
    ensures Equals(Atoms(), DictOther(Swapped())) == Ok(true)
  {
    assert Swapped().vals == Atoms().vals;
    EqualsExact(Atoms(), Swapped());
  }

  /** Comparing with a dict whose columns cannot be broadcast raises
      `ValueError`. */
  lemma EqualsRaggedScenario()
    ensures Equals(Atoms(), DictOther(Short())) == Err(ValueError)
  {
    assert Short().vals.Keys == Atoms().vals.Keys;
    assert !Broadcastable(|Atoms().vals["id"]|, |Short().vals["id"]|);
  }
}
