/** The history store of earlier frames: five lists that only ever grow, one per kind of value
    (left and right plotted lane x, left and right curvature radius, lateral offset). Each
    getter returns the newest entry of its list and raises on an empty list (`None` here). */
module FormerLanesHistory {
  import opened Wrappers
  import LaneMetrics

  /** The newest entry of a list: `s[-1]`, which raises on an empty list. */
  function Newest<T>(s: seq<T>): (r: Option<T>)
    ensures r.None? <==> |s| == 0
    ensures r.Some? ==> r.value == s[|s| - 1]
  {
    if |s| == 0 then None else Some(s[|s| - 1])
  }

  class FormerLanes {
    var left: seq<seq<real>>
    var right: seq<seq<real>>
    var leftCurvature: seq<LaneMetrics.Radius>
    var rightCurvature: seq<LaneMetrics.Radius>
    var offset: seq<real>

    /** Starts with five empty lists. */
    constructor ()
      ensures left == [] && right == [] && leftCurvature == [] && rightCurvature == [] && offset == []
    {
      left, right := [], [];
      leftCurvature, rightCurvature := [], [];
      offset := [];
    }

    function GetLeft(): (r: Option<seq<real>>)
      reads this
      ensures r.None? <==> left == []
      ensures r.Some? ==> r.value == left[|left| - 1]
    {
      Newest(left)
    }

    function GetRight(): (r: Option<seq<real>>)
      reads this
      ensures r.None? <==> right == []
      ensures r.Some? ==> r.value == right[|right| - 1]
    {
      Newest(right)
    }

    function GetLeftCurvature(): (r: Option<LaneMetrics.Radius>)
      reads this
      ensures r.None? <==> leftCurvature == []
      ensures r.Some? ==> r.value == leftCurvature[|leftCurvature| - 1]
    {
      Newest(leftCurvature)
    }

    function GetRightCurvature(): (r: Option<LaneMetrics.Radius>)
      reads this
      ensures r.None? <==> rightCurvature == []
      ensures r.Some? ==> r.value == rightCurvature[|rightCurvature| - 1]
    {
      Newest(rightCurvature)
    }

    function GetOffset(): (r: Option<real>)
      reads this
      ensures r.None? <==> offset == []
      ensures r.Some? ==> r.value == offset[|offset| - 1]
    {
      Newest(offset)
    }

    /** Appends to the left list; afterwards `GetLeft()` returns the new value. */
    method NewLeft(v: seq<real>)
      modifies this
      ensures left == old(left) + [v] && GetLeft() == Some(v)
      ensures right == old(right) && leftCurvature == old(leftCurvature)
      ensures rightCurvature == old(rightCurvature) && offset == old(offset)
    {
      left := left + [v];
    }

    method NewRight(v: seq<real>)
      modifies this
      ensures right == old(right) + [v] && GetRight() == Some(v)
      ensures left == old(left) && leftCurvature == old(leftCurvature)
      ensures rightCurvature == old(rightCurvature) && offset == old(offset)
    {
      right := right + [v];
    }

    method NewLeftCurvature(v: LaneMetrics.Radius)
      modifies this
      ensures leftCurvature == old(leftCurvature) + [v] && GetLeftCurvature() == Some(v)
      ensures left == old(left) && right == old(right)
      ensures rightCurvature == old(rightCurvature) && offset == old(offset)
    {
      leftCurvature := leftCurvature + [v];
    }

    method NewRightCurvature(v: LaneMetrics.Radius)
      modifies this
      ensures rightCurvature == old(rightCurvature) + [v] && GetRightCurvature() == Some(v)
      ensures left == old(left) && right == old(right)
      ensures leftCurvature == old(leftCurvature) && offset == old(offset)
    {
      rightCurvature := rightCurvature + [v];
    }

    method NewOffset(v: real)
      modifies this
      ensures offset == old(offset) + [v] && GetOffset() == Some(v)
      ensures left == old(left) && right == old(right)
      ensures leftCurvature == old(leftCurvature) && rightCurvature == old(rightCurvature)
    {
      offset := offset + [v];
    }
  }

  /** A client: a fresh store fails every read until something is stored, then reads the
      latest of each kind. */
  method HistoryScenario(l1: seq<real>, l2: seq<real>, r1: seq<real>, c: LaneMetrics.Radius, o: real)
    returns (before: Option<seq<real>>, latest: Option<seq<real>>, untouched: Option<real>)
    ensures before == None && latest == Some(l2) && untouched == None
  {
    var history := new FormerLanes();
    before := history.GetLeft();
    history.NewLeft(l1);
    history.NewRight(r1);
    history.NewLeft(l2);
    history.NewLeftCurvature(c);
    latest := history.GetLeft();
    untouched := history.GetOffset();
  }
}
