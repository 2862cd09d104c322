/** The items of a batch and the lines that report on them, one by one. */
module BatchItems {
  import opened Sequences

  /** One result, and one line of a results file. */
  datatype Line<O> = Line(customId: string, outcome: O)

  predicate Distinct(ids: seq<string>) {
    forall i, j :: 0 <= i < j < |ids| ==> ids[i] != ids[j]
  }

  predicate Listed<O>(lines: seq<Line<O>>, id: string) {
    exists i :: 0 <= i < |lines| && lines[i].customId == id
  }

  predicate DistinctLines<O>(lines: seq<Line<O>>) {
    forall i, j :: 0 <= i < j < |lines| ==> lines[i].customId != lines[j].customId
  }

  /** Every custom id on exactly one line, and nothing else. */
  predicate ListsEachOnce<O>(lines: seq<Line<O>>, ids: seq<string>) {
    && |lines| == |ids| && DistinctLines(lines)
    && (forall i :: 0 <= i < |lines| ==> lines[i].customId in ids)
    && (forall i :: 0 <= i < |ids| ==> Listed(lines, ids[i]))
  }

  function IdSet<O>(lines: seq<Line<O>>): set<string> {
    if lines == [] then {} else IdSet(lines[..|lines| - 1]) + {lines[|lines| - 1].customId}
  }

  lemma {:induction false} IdSetMembers<O>(lines: seq<Line<O>>)
    ensures forall id :: id in IdSet(lines) <==> Listed(lines, id)
  {
    if lines != [] {
      var before, last := lines[..|lines| - 1], lines[|lines| - 1];
      IdSetMembers(before);
      forall id ensures id in IdSet(lines) <==> Listed(lines, id) {
        ListedSnoc(before, last, id);
        Snoc(lines);
      }
    }
  }

  lemma ListedSnoc<O>(before: seq<Line<O>>, last: Line<O>, id: string)
    ensures Listed(before + [last], id) <==> Listed(before, id) || last.customId == id
  {
    var lines := before + [last];
    if Listed(before, id) {
      var i :| 0 <= i < |before| && before[i].customId == id;
      assert lines[i].customId == id;
    }
    assert lines[|before|] == last;
    if Listed(lines, id) {
      var i :| 0 <= i < |lines| && lines[i].customId == id;
      assert i < |before| ==> before[i].customId == id;
    }
  }

  lemma {:induction false} IdSetSize<O>(lines: seq<Line<O>>)
    requires DistinctLines(lines)
    ensures |IdSet(lines)| == |lines|
  {
    if lines != [] {
      var before := lines[..|lines| - 1];
      IdSetSize(before);
      IdSetMembers(before);
      assert !Listed(before, lines[|lines| - 1].customId);
    }
  }

  function Members(ids: seq<string>): set<string> {
    if ids == [] then {} else Members(ids[..|ids| - 1]) + {ids[|ids| - 1]}
  }

  lemma {:induction false} MembersSize(ids: seq<string>)
    ensures |Members(ids)| <= |ids| && forall id :: id in Members(ids) <==> id in ids
  {
    if ids != [] {
      MembersSize(ids[..|ids| - 1]);
      Snoc(ids);
    }
  }

  /** As many different lines as there are requests means a line for every request. */
  lemma FullListCoversAll<O>(lines: seq<Line<O>>, ids: seq<string>)
    requires |lines| == |ids| && DistinctLines(lines) && forall i :: 0 <= i < |lines| ==> lines[i].customId in ids
    ensures ListsEachOnce(lines, ids)
  {
    IdSetSize(lines);
    IdSetMembers(lines);
    MembersSize(ids);
    assert IdSet(lines) <= Members(ids);
    assert Members(ids) == IdSet(lines) + (Members(ids) - IdSet(lines));
    forall i | 0 <= i < |ids| ensures Listed(lines, ids[i]) {
      assert ids[i] in Members(ids);
    }
  }

  /** The lines with one outcome. */
  function Only<O(==)>(lines: seq<Line<O>>, outcome: O): seq<Line<O>> {
    if lines == [] then []
    else
      var before, last := Only(lines[..|lines| - 1], outcome), lines[|lines| - 1];
      if last.outcome == outcome then before + [last] else before
  }

  lemma {:induction false} OnlyListed<O>(lines: seq<Line<O>>, outcome: O, id: string)
    ensures Listed(Only(lines, outcome), id) <==>
              exists i :: 0 <= i < |lines| && lines[i].customId == id && lines[i].outcome == outcome
  {
    if lines != [] {
      var before, last := lines[..|lines| - 1], lines[|lines| - 1];
      OnlyListed(before, outcome, id);
      ListedSnoc(Only(before, outcome), last, id);
      if i :| 0 <= i < |before| && before[i].customId == id && before[i].outcome == outcome {
        assert lines[i] == before[i];
      }
      if i :| 0 <= i < |lines| && lines[i].customId == id && lines[i].outcome == outcome {
        assert i < |before| ==> before[i] == lines[i];
      }
    }
  }

  lemma {:induction false} OnlyDistinct<O>(lines: seq<Line<O>>, outcome: O)
    requires DistinctLines(lines)
    ensures DistinctLines(Only(lines, outcome))
  {
    if lines != [] {
      var before, last := lines[..|lines| - 1], lines[|lines| - 1];
      OnlyDistinct(before, outcome);
      OnlyListed(before, outcome, last.customId);
      assert !Listed(Only(before, outcome), last.customId);
      SnocDistinct(Only(before, outcome), last);
    }
  }

  lemma SnocDistinct<O>(lines: seq<Line<O>>, last: Line<O>)
    requires DistinctLines(lines) && !Listed(lines, last.customId)
    ensures DistinctLines(lines + [last])
  {
    var more := lines + [last];
    forall i, j | 0 <= i < j < |more| ensures more[i].customId != more[j].customId {
      assert more[i] == lines[i];
    }
  }
}
