/**
 * Turning the model's decoded JSON answer into transcript turns.
 *
 * The legacy app repairs record by record: a record without `speaker` is
 * dropped, a missing `text` becomes "", a record that still is not a
 * `TranscriptTurn` is dropped. Its loop is plain Python over whatever
 * `json.loads` returned, so elements that are not objects go through the
 * same `in` tests and either fall through the "no speaker" branch or raise
 * `TypeError`, which ends the whole batch with `None`.
 *
 * The API converts all or nothing: `[TranscriptTurn(**t) for t in ...]`.
 *
 * `TranscriptTurn` validation is taken as "speaker and text are both JSON
 * strings"; extra fields are ignored.
 */
module Records {
  import opened Wrappers
  import opened Text

  /** A decoded JSON value. Object keys are unique, as after `json.loads`. */
  datatype Json =
    | JNull
    | JBool(b: bool)
    | JNumber(n: real)
    | JString(s: string)
    | JArray(items: seq<Json>)
    | JObject(fields: map<string, Json>)

  /** The outcome of `json.loads(response.text)`: a value, or `JSONDecodeError`. */
  datatype Decoded = NotJson | Parsed(value: Json)

  /** `TranscriptTurn`: one block of speech by one speaker. */
  datatype Turn = Turn(speaker: string, text: string)

  /** The fields pass `TranscriptTurn` validation. */
  predicate IsTurnShape(fields: map<string, Json>) {
    && "speaker" in fields && fields["speaker"].JString?
    && "text" in fields && fields["text"].JString?
  }

  function TurnOf(fields: map<string, Json>): Turn
    requires IsTurnShape(fields)
  {
    Turn(fields["speaker"].s, fields["text"].s)
  }

  /** What the legacy loop does with one element. */
  datatype Verdict = Keep(turn: Turn) | Drop | Abort

  /**
   * One pass of the legacy loop body on `record`:
   * objects are repaired or dropped; a string or list is dropped unless
   * `'speaker' in record` holds, in which case `TypeError` is raised: by the
   * subscript `turn_data['speaker']` in the warning when `'text'` is not in
   * it either, by the `**` unpacking otherwise; `'speaker' in` a number,
   * boolean or null raises `TypeError` at once.
   */
  function RepairRecord(record: Json): (v: Verdict)
    ensures v.Keep? <==>
              && record.JObject?
              && "speaker" in record.fields && record.fields["speaker"].JString?
              && ("text" in record.fields ==> record.fields["text"].JString?)
    ensures v.Keep? ==>
              v.turn == Turn(record.fields["speaker"].s,
                             if "text" in record.fields then record.fields["text"].s else "")
    ensures v.Abort? <==>
              || record.JNull? || record.JBool? || record.JNumber?
              || (record.JString? && Contains(record.s, "speaker"))
              || (record.JArray? && JString("speaker") in record.items)
  {
    match record
    case JObject(fields) =>
      if "speaker" !in fields then Drop
      else
        var filled := if "text" in fields then fields else fields["text" := JString("")];
        if IsTurnShape(filled) then Keep(TurnOf(filled)) else Drop
    case JString(s) => if Contains(s, "speaker") then Abort else Drop
    case JArray(items) => if JString("speaker") in items then Abort else Drop
    case _ => Abort
  }

  /** The turns the legacy loop keeps, in input order. */
  function Kept(records: seq<Json>): seq<Turn> {
    if records == [] then []
    else
      var earlier := Kept(records[..|records| - 1]);
      match RepairRecord(records[|records| - 1])
      case Keep(t) => earlier + [t]
      case _ => earlier
  }

  /** Some element makes the legacy loop raise `TypeError`. */
  predicate Aborts(records: seq<Json>) {
    exists i :: 0 <= i < |records| && RepairRecord(records[i]).Abort?
  }

  /** The legacy loop over a list: every kept turn, or `None` when an element raised. */
  function Repair(records: seq<Json>): Option<seq<Turn>> {
    if Aborts(records) then None else Some(Kept(records))
  }

  /**
   * The per-record repair loop of `generate_transcript`. `validated` is the
   * list the function returns; `None` stands for the `except TypeError`
   * branch.
   */
  method RepairTurns(records: seq<Json>) returns (validated: Option<seq<Turn>>)
    ensures validated == Repair(records)
  {
    var turns: seq<Turn> := [];
    var i := 0;
    while i < |records|
      invariant 0 <= i <= |records|
      invariant turns == Kept(records[..i])
      invariant !Aborts(records[..i])
    {
      assert records[..i + 1][..i] == records[..i];
      var turnData := records[i];
      match turnData {
        case JObject(fields) =>
          if "speaker" in fields {
            if "text" !in fields {
              fields := fields["text" := JString("")];
            }
            if IsTurnShape(fields) {
              turns := turns + [TurnOf(fields)];
            }
          }
        case JString(s) =>
          if Contains(s, "speaker") {
            assert RepairRecord(records[i]).Abort?;
            return None;
          }
        case JArray(items) =>
          if JString("speaker") in items {
            assert RepairRecord(records[i]).Abort?;
            return None;
          }
        case _ =>
          assert RepairRecord(records[i]).Abort?;
          return None;
      }
      i := i + 1;
    }
    assert records[..i] == records;
    validated := Some(turns);
  }

  /**
   * `generate_transcript` after the model answered: decode, then iterate.
   * A bare string is iterated character by character, an object key by key;
   * anything else that is not a list is not iterable.
   */
  function RepairDecoded(d: Decoded): Option<seq<Turn>> {
    match d
    case NotJson => None
    case Parsed(JArray(items)) => Repair(items)
    case Parsed(JString(s)) => Repair(seq(|s|, i requires 0 <= i < |s| => JString([s[i]])))
    case Parsed(JObject(fields)) =>
      // each key is a string; one that contains "speaker" raises TypeError
      if exists k :: k in fields && Contains(k, "speaker") then None else Some([])
    case Parsed(_) => None
  }

  /**
   * `[TranscriptTurn(**t) for t in json.loads(resp.text)]`: one turn per
   * element and in order, or nothing when any element is not a valid turn
   * object. Iterating a string or an object yields strings, which `**`
   * rejects, so only an empty one converts.
   */
  function StrictTurns(d: Decoded): Option<seq<Turn>> {
    match d
    case NotJson => None
    case Parsed(JArray(items)) =>
      if forall i :: 0 <= i < |items| ==> items[i].JObject? && IsTurnShape(items[i].fields)
      then Some(seq(|items|, i requires 0 <= i < |items| && items[i].JObject? && IsTurnShape(items[i].fields)
                              => TurnOf(items[i].fields)))
      else None
    case Parsed(JString(s)) => if s == "" then Some([]) else None
    case Parsed(JObject(fields)) => if |fields| == 0 then Some([]) else None
    case Parsed(_) => None
  }

  // ---------------------------------------------------------------------
  // Properties of the repair loop
  // ---------------------------------------------------------------------

  /** The loop never produces more turns than it was given records. */
  lemma {:induction false} KeptLength(records: seq<Json>)
    ensures |Kept(records)| <= |records|
  {
    if records != [] {
      KeptLength(records[..|records| - 1]);
    }
  }

  /** The positions of the records the legacy loop keeps, in input order. */
  function KeptIndices(records: seq<Json>): (idx: seq<nat>)
    ensures |idx| == |Kept(records)|
    ensures forall k :: 0 <= k < |idx| ==> idx[k] < |records|
    ensures forall k, l :: 0 <= k < l < |idx| ==> idx[k] < idx[l]
  {
    if records == [] then []
    else
      var n := |records| - 1;
      var earlier := KeptIndices(records[..n]);
      if RepairRecord(records[n]).Keep? then earlier + [n] else earlier
  }

  /** The `k`-th kept turn is the repair of the record at the `k`-th kept position. */
  lemma {:induction false} KeptIndicesPoint(records: seq<Json>)
    ensures var idx := KeptIndices(records);
            forall k :: 0 <= k < |idx| ==> RepairRecord(records[idx[k]]) == Keep(Kept(records)[k])
  {
    if records != [] {
      var n := |records| - 1;
      var init := records[..n];
      KeptIndicesPoint(init);
      var idx, earlier := KeptIndices(records), KeptIndices(init);
      forall k | 0 <= k < |idx|
        ensures RepairRecord(records[idx[k]]) == Keep(Kept(records)[k])
      {
        if k < |earlier| {
          assert idx[k] == earlier[k] && records[idx[k]] == init[earlier[k]];
          assert Kept(records)[k] == Kept(init)[k];
        }
      }
    }
  }

  /** Every record the loop would keep has its position among the kept ones. */
  lemma {:induction false} KeptIndicesComplete(records: seq<Json>)
    ensures forall i :: 0 <= i < |records| && RepairRecord(records[i]).Keep? ==> i in KeptIndices(records)
  {
    if records != [] {
      var n := |records| - 1;
      var init := records[..n];
      KeptIndicesComplete(init);
      var idx, earlier := KeptIndices(records), KeptIndices(init);
      forall i | 0 <= i < |records| && RepairRecord(records[i]).Keep?
        ensures i in idx
      {
        if i < n {
          assert init[i] == records[i];
          assert i in earlier;
        } else {
          assert idx[|earlier|] == i;
        }
      }
    }
  }

  /**
   * The kept turns are an ordered selection of the records: each comes from
   * the record at its position, positions increase, and no keepable record
   * is skipped.
   */
  lemma KeptIsOrderedSelection(records: seq<Json>)
    ensures var idx := KeptIndices(records);
            && (forall k :: 0 <= k < |idx| ==>
                  idx[k] < |records| && RepairRecord(records[idx[k]]) == Keep(Kept(records)[k]))
            && (forall k, l :: 0 <= k < l < |idx| ==> idx[k] < idx[l])
            && (forall i :: 0 <= i < |records| && RepairRecord(records[i]).Keep? ==> i in idx)
  {
    KeptIndicesPoint(records);
    KeptIndicesComplete(records);
  }


  /** Records that are all objects never abort the batch: each is kept or dropped on its own. */
  lemma ObjectsNeverAbort(records: seq<Json>)
    requires forall i :: 0 <= i < |records| ==> records[i].JObject?
    ensures Repair(records) == Some(Kept(records))
  {
  }

  /** When every record is kept, the output is the records' turns one for one. */
  lemma {:induction false} KeptAllValid(records: seq<Json>)
    requires forall i :: 0 <= i < |records| ==> records[i].JObject? && IsTurnShape(records[i].fields)
    ensures Kept(records) == seq(|records|, i requires 0 <= i < |records| && records[i].JObject? && IsTurnShape(records[i].fields)
                                              => TurnOf(records[i].fields))
  {
    if records != [] {
      KeptAllValid(records[..|records| - 1]);
    }
  }

  /** Records that are all dropped leave nothing. */
  lemma {:induction false} KeptAllDropped(records: seq<Json>)
    requires forall i :: 0 <= i < |records| ==> RepairRecord(records[i]).Drop?
    ensures Kept(records) == []
  {
    if records != [] {
      KeptAllDropped(records[..|records| - 1]);
    }
  }

  /**
   * A bare JSON string is not rejected: iterating it gives one-character
   * strings, none of which contains "speaker", so all are skipped and the
   * result is an empty transcript rather than `None`.
   */
  lemma BareStringRepairsToEmpty(s: string)
    ensures RepairDecoded(Parsed(JString(s))) == Some([])
  {
    var chars := seq(|s|, i requires 0 <= i < |s| => JString([s[i]]));
    assert forall i :: 0 <= i < |chars| ==> RepairRecord(chars[i]).Drop?;
    KeptAllDropped(chars);
  }

  /** Whenever the strict conversion succeeds, the repairing loop returns the same turns. */
  lemma StrictAgreesWithRepair(d: Decoded)
    requires StrictTurns(d).Some?
    ensures RepairDecoded(d) == StrictTurns(d)
  {
    match d
    case Parsed(JArray(items)) =>
      KeptAllValid(items);
    case Parsed(JString(s)) =>
    case Parsed(JObject(fields)) =>
  }

  /**
   * The API's conversion judged record by record: it succeeds exactly when
   * every element is an object that already has `text` and that the legacy
   * loop would keep, and then it yields, one for one and in order, the turn
   * the legacy loop would make of each element.
   */
  lemma StrictIsPerRecord(items: seq<Json>)
    ensures StrictTurns(Parsed(JArray(items))).Some? <==>
              forall i :: 0 <= i < |items| ==>
                items[i].JObject? && "text" in items[i].fields && RepairRecord(items[i]).Keep?
    ensures StrictTurns(Parsed(JArray(items))).Some? ==>
              var turns := StrictTurns(Parsed(JArray(items))).value;
              && |turns| == |items|
              && forall i :: 0 <= i < |items| ==> RepairRecord(items[i]) == Keep(turns[i])
  {
  }

  /**
   * The two front ends differ on a record without `text`: the legacy loop
   * keeps it with empty text, the API rejects the whole answer. Records
   * without `speaker` are dropped by one and fatal to the other.
   */
  lemma MissingTextRepairedNotStrict(speaker: string, text: string)
    ensures RepairDecoded(Parsed(JArray([JObject(map["speaker" := JString(speaker)])])))
            == Some([Turn(speaker, "")])
    ensures StrictTurns(Parsed(JArray([JObject(map["speaker" := JString(speaker)])]))) == None
    ensures RepairDecoded(Parsed(JArray([JObject(map["text" := JString(text)])]))) == Some([])
    ensures StrictTurns(Parsed(JArray([JObject(map["text" := JString(text)])]))) == None
  {
    var unnamed := [JObject(map["text" := JString(text)])];
    assert unnamed[..0] == [];
    assert RepairRecord(unnamed[0]) == Drop;
    assert !Aborts(unnamed);
    assert Kept(unnamed) == [];

    var fields := map["speaker" := JString(speaker)];
    var records := [JObject(fields)];
    assert records[..0] == [];
    var filled := fields["text" := JString("")];
    assert IsTurnShape(filled);
    assert RepairRecord(records[0]) == Keep(Turn(speaker, ""));
    assert !Aborts(records);
    assert Kept(records) == [Turn(speaker, "")];
    assert !IsTurnShape(fields);
  }

  /**
   * The worked example: `[{"speaker":"A","text":"hi"},{"text":"no speaker"},{"speaker":"B"}]`
   * gives A/"hi" and B/"": the second record is dropped, the third repaired.
   */
  lemma RepairExample()
    ensures Repair([JObject(map["speaker" := JString("A"), "text" := JString("hi")]),
                    JObject(map["text" := JString("no speaker")]),
                    JObject(map["speaker" := JString("B")])])
            == Some([Turn("A", "hi"), Turn("B", "")])
  {
    var r := [JObject(map["speaker" := JString("A"), "text" := JString("hi")]),
              JObject(map["text" := JString("no speaker")]),
              JObject(map["speaker" := JString("B")])];
    assert RepairRecord(r[0]) == Keep(Turn("A", "hi"));
    assert RepairRecord(r[1]) == Drop;
    assert RepairRecord(r[2]) == Keep(Turn("B", ""));
    assert r[..1][..0] == [];
    assert Kept(r[..1]) == [Turn("A", "hi")];
    assert r[..2][..1] == r[..1];
    assert Kept(r[..2]) == [Turn("A", "hi")];
    assert r[..|r| - 1] == r[..2];
    assert Kept(r) == [Turn("A", "hi"), Turn("B", "")];
  }
}
