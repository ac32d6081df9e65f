/**
 Reference ids of alert queries (alerting_manage_rules_types.go): letters in the style of
 spreadsheet columns, handed out by position to queries that come without one.
 */
module AlertRefIds {
  import opened Common

  function Letter(d: nat): char
    requires d < 26
  {
    'A' + d as char
  }

  /** A, B, ..., Z, AA, AB, ...: the specification of the numbering. */
  function RefId(i: nat): (s: string)
    ensures s != "" && AllLetters(s)
  {
    if i < 26 then [Letter(i)] else RefId(i / 26 - 1) + [Letter(i % 26)]
  }

  predicate AllLetters(s: string) {
    forall k :: 0 <= k < |s| ==> 'A' <= s[k] <= 'Z'
  }

  /** The loop of the program, which writes the letters from right to left. */
  method IndexToRefId(index: nat) returns (result: string)
    ensures result == RefId(index)
  {
    result := "";
    var i: int := index;
    while true
      invariant i >= 0 && RefId(i) + result == RefId(index)
      decreases i
    {
      ghost var tail := result;
      result := [Letter(i % 26)] + result;
      assert RefId(i) == (if i < 26 then "" else RefId(i / 26 - 1)) + [Letter(i % 26)];
      Assoc(if i < 26 then "" else RefId(i / 26 - 1), [Letter(i % 26)], tail);
      i := i / 26 - 1;
      if i < 0 {
        break;
      }
    }
  }

  /** Position of a reference id in the enumeration: the inverse of the numbering. */
  function Position(s: string): nat
    requires s != "" && AllLetters(s)
  {
    var d := (s[|s| - 1] - 'A') as nat;
    if |s| == 1 then d else 26 * (Position(s[..|s| - 1]) + 1) + d
  }

  lemma {:induction false} PositionOfRefId(i: nat)
    ensures Position(RefId(i)) == i
  {
    var s := RefId(i);
    if i >= 26 {
      PositionOfRefId(i / 26 - 1);
      assert s[..|s| - 1] == RefId(i / 26 - 1);
    }
  }

  lemma DigitsSplit(p: nat, d: nat)
    requires d < 26
    ensures (26 * (p + 1) + d) / 26 - 1 == p && (26 * (p + 1) + d) % 26 == d
  {
  }

  lemma RefIdStep(p: nat, d: nat)
    requires d < 26
    ensures RefId(26 * (p + 1) + d) == RefId(p) + [Letter(d)]
    ensures RefId(d) == [Letter(d)]
  {
    DigitsSplit(p, d);
  }

  lemma {:induction false} RefIdOfPosition(s: string)
    requires s != "" && AllLetters(s)
    ensures RefId(Position(s)) == s
  {
    var front, d := s[..|s| - 1], (s[|s| - 1] - 'A') as nat;
    assert s == front + [s[|s| - 1]] && Letter(d) == s[|s| - 1];
    if |s| > 1 {
      RefIdOfPosition(front);
      RefIdStep(Position(front), d);
    } else {
      RefIdStep(0, d);
    }
    hide RefId, Letter;
  }

  /** The numbering is one-to-one, so positions never share an id. */
  lemma RefIdInjective(i: nat, j: nat)
    requires RefId(i) == RefId(j)
    ensures i == j
  {
    PositionOfRefId(i);
    PositionOfRefId(j);
  }

  // ---------------------------------------------------------------- conversion of a rule's queries

  datatype TimeRange = TimeRange(from: int, to: int)

  /** A query as the caller gives it; an empty `refId` asks for an automatic one. */
  datatype AlertQuery<M> =
    AlertQuery(refId: string, datasourceUid: string, timeRange: Option<TimeRange>, queryType: string, model: M)

  datatype Conversion<M> = Converted(queries: seq<AlertQuery<M>>) | NilQuery(index: nat)

  const EXPRESSION_DATASOURCE := "__expr__"

  function ConvertOne<M>(i: nat, q: AlertQuery<M>): AlertQuery<M> {
    q.(refId := if q.refId == "" then RefId(i) else q.refId,
       timeRange := if q.timeRange.None? && q.datasourceUid != EXPRESSION_DATASOURCE
                    then Some(TimeRange(600, 0)) else q.timeRange)
  }

  /** Converts all queries, or reports the first nil entry. */
  method ConvertAlertQueries<M>(queries: seq<Option<AlertQuery<M>>>) returns (result: Conversion<M>)
    ensures result.Converted? <==> None !in queries
    ensures result.Converted? ==>
              && |result.queries| == |queries|
              && forall i :: 0 <= i < |queries| ==> result.queries[i] == ConvertOne(i, queries[i].value)
    ensures result.Converted? ==>
              forall i :: 0 <= i < |queries| ==>
                var q, r := queries[i].value, result.queries[i];
                && r.datasourceUid == q.datasourceUid && r.queryType == q.queryType && r.model == q.model
                && (if q.refId == "" then r.refId == RefId(i) else r.refId == q.refId)
                && (q.timeRange.Some? ==> r.timeRange == q.timeRange)
                && (q.timeRange.None? && q.datasourceUid == "__expr__" ==> r.timeRange == None)
                && (q.timeRange.None? && q.datasourceUid != "__expr__" ==> r.timeRange == Some(TimeRange(600, 0)))
    ensures result.NilQuery? ==>
              result.index < |queries| && queries[result.index].None? && None !in queries[..result.index]
  {
    var converted: seq<AlertQuery<M>> := [];
    for i := 0 to |queries|
      invariant |converted| == i && None !in queries[..i]
      invariant forall k :: 0 <= k < i ==> queries[k].Some? && converted[k] == ConvertOne(k, queries[k].value)
    {
      if queries[i].None? {
        return NilQuery(i);
      }
      var q := queries[i].value;
      var refId := q.refId;
      if refId == "" {
        refId := IndexToRefId(i);
      }
      var timeRange := q.timeRange;
      if timeRange.None? && q.datasourceUid != EXPRESSION_DATASOURCE {
        timeRange := Some(TimeRange(600, 0));
      }
      converted := converted + [AlertQuery(refId, q.datasourceUid, timeRange, q.queryType, q.model)];
    }
    return Converted(converted);
  }

  predicate DistinctIds<M>(queries: seq<AlertQuery<M>>) {
    forall i, j :: 0 <= i < j < |queries| ==> queries[i].refId != queries[j].refId
  }

  /** The ids a caller wrote repeat neither each other nor the letters of an id-less position. */
  predicate ExplicitIdsApart<M>(queries: seq<AlertQuery<M>>) {
    forall i, j :: 0 <= i < |queries| && 0 <= j < |queries| && i != j && queries[i].refId != "" ==>
      queries[i].refId != (if queries[j].refId == "" then RefId(j) else queries[j].refId)
  }

  function ConvertAll<M>(queries: seq<AlertQuery<M>>): (r: seq<AlertQuery<M>>)
    ensures |r| == |queries|
  {
    seq(|queries|, i requires 0 <= i < |queries| => ConvertOne(i, queries[i]))
  }

  /**
   Automatic ids never collide with each other.  The ids of a converted rule are distinct exactly
   when the explicit ones keep apart.
   */
  lemma IdsDistinctIffExplicitApart<M>(queries: seq<AlertQuery<M>>)
    ensures DistinctIds(ConvertAll(queries)) <==> ExplicitIdsApart(queries)
  {
    var r := ConvertAll(queries);
    if ExplicitIdsApart(queries) {
      forall i, j | 0 <= i < j < |r|
        ensures r[i].refId != r[j].refId
      {
        if r[i].refId == r[j].refId && queries[i].refId == "" && queries[j].refId == "" {
          RefIdInjective(i, j);
        }
      }
    }
    if DistinctIds(r) {
      forall i, j | 0 <= i < |queries| && 0 <= j < |queries| && i != j && queries[i].refId != ""
        ensures queries[i].refId != (if queries[j].refId == "" then RefId(j) else queries[j].refId)
      {
        assert r[if i < j then i else j].refId != r[if i < j then j else i].refId;
      }
    }
  }

  /** An explicit "B" before an id-less second query. */
  lemma ExplicitBRepeats<M>(first: AlertQuery<M>, second: AlertQuery<M>)
    requires first.refId == "B" && second.refId == ""
    ensures !DistinctIds(ConvertAll([first, second]))
  {
    var r := ConvertAll([first, second]);
    assert r[0] == ConvertOne(0, first) && r[1] == ConvertOne(1, second);
    assert RefId(1) == [Letter(1)] == "B";
  }
}
