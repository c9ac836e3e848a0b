/**
 * Index detection: the list reports which items are at least 90% visible,
 * and the carousel passes an item's position to `onIndexChange` only when
 * exactly one item is reported.
 */
module Viewability {

  /** One entry of the list's viewable-items report; only its position is used. */
  datatype ViewToken = ViewToken(index: int)

  /** The `onIndexChange` calls one viewability report causes, as their arguments. */
  function IndexChangeCalls(viewableItems: seq<ViewToken>): (calls: seq<int>)
    ensures |calls| <= 1
    ensures |calls| == 1 <==> |viewableItems| == 1
    ensures forall k :: 0 <= k < |calls| ==> calls[k] == viewableItems[0].index
  {
    if |viewableItems| == 1 then [viewableItems[0].index] else []
  }

  /** The arguments of every `onIndexChange` call over a run of reports, in order. */
  function CallbackLog(reports: seq<seq<ViewToken>>): seq<int>
  {
    if reports == [] then []
    else CallbackLog(reports[..|reports| - 1]) + IndexChangeCalls(reports[|reports| - 1])
  }

  /** Some report in `reports` has exactly one viewable item, at position `x`. */
  ghost predicate SoleItemOfSomeReport(reports: seq<seq<ViewToken>>, x: int)
  {
    exists j :: 0 <= j < |reports| && |reports[j]| == 1 && reports[j][0].index == x
  }

  /**
   * Over a run of reports: at most one call per report; every call carries
   * the position of the sole item of some report; and every report with a
   * sole item produced a call with its position.
   */
  lemma {:induction false} CallbackLogFromSingleReports(reports: seq<seq<ViewToken>>)
    ensures |CallbackLog(reports)| <= |reports|
    ensures forall x :: x in CallbackLog(reports) ==> SoleItemOfSomeReport(reports, x)
    ensures forall j :: 0 <= j < |reports| && |reports[j]| == 1 ==> reports[j][0].index in CallbackLog(reports)
  {
    if reports == [] {
      assert CallbackLog(reports) == [];
    } else {
      var init := reports[..|reports| - 1];
      var last := reports[|reports| - 1];
      CallbackLogFromSingleReports(init);
      var log := CallbackLog(reports);
      assert log == CallbackLog(init) + IndexChangeCalls(last);
      forall x | x in log
        ensures SoleItemOfSomeReport(reports, x)
      {
        if x in CallbackLog(init) {
          var j :| 0 <= j < |init| && |init[j]| == 1 && init[j][0].index == x;
          assert reports[j] == init[j];
        } else {
          assert x in IndexChangeCalls(last);
          assert |last| == 1 && x == last[0].index;
          assert reports[|reports| - 1] == last;
        }
      }
      forall j | 0 <= j < |reports| && |reports[j]| == 1
        ensures reports[j][0].index in log
      {
        if j < |init| {
          assert reports[j] == init[j];
          assert init[j][0].index in CallbackLog(init);
        } else {
          assert log[|log| - 1] == last[0].index;
        }
      }
    }
  }

  /** A run in which no report has exactly one item never calls `onIndexChange`. */
  lemma {:induction false} NoSingleReportNoCallback(reports: seq<seq<ViewToken>>)
    requires forall j :: 0 <= j < |reports| ==> |reports[j]| != 1
    ensures CallbackLog(reports) == []
  {
    if reports != [] {
      NoSingleReportNoCallback(reports[..|reports| - 1]);
    }
  }
}
