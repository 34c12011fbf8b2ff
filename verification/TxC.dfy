/** txc.v: which PHY gets the next task. */
module TxC {
  import opened Phys

  datatype State = Idle | Req | Sent

  /** cur_state and tx_phy_sel. */
  datatype TxC = TxC(state: State, sel: seq<bool>)

  /** busy is timer_start | timer_busy of each PHY; rst is the system reset or a flush. */
  datatype In = In(rst: bool, flush: bool, mask: seq<bool>, busy: seq<bool>, taskVld: bool, done: bool)

  predicate Sized(i: In) { |i.mask| == PHYS && |i.busy| == PHYS }

  function NextState(c: TxC, i: In): State {
    match c.state
    case Idle => if Any(c.sel) then Req else Idle
    case Req => if i.taskVld then Sent else Req
    case Sent => if i.done then Idle else Sent
  }

  /** tx_phy_start */
  predicate Starts(c: TxC, taskVld: bool) { c.state.Req? && taskVld }

  /** The first PHY that is neither busy nor masked out. */
  function Arbitrate(busy: seq<bool>, mask: seq<bool>): (s: seq<bool>)
    requires |busy| == |mask| == PHYS
    ensures |s| == PHYS
  {
    if !busy[0] && mask[0] then Only(0)
    else if !busy[1] && mask[1] then Only(1)
    else if !busy[2] && mask[2] then Only(2)
    else if !busy[3] && mask[3] then Only(3)
    else if !busy[4] && mask[4] then Only(4)
    else Only(PHYS)
  }

  /** One clock edge. */
  function Next(c: TxC, i: In): (d: TxC)
    requires Sized(i) && |c.sel| == PHYS
    ensures |d.sel| == PHYS
  {
    var nxt := NextState(c, i);
    TxC(if i.rst || i.flush then Idle else nxt,
        if i.rst || i.flush || (c.state.Sent? && nxt.Idle?) then Only(PHYS)
        else if c.state.Idle? then Arbitrate(i.busy, i.mask)
        else c.sel)
  }

  /** The first PHY that is free and enabled is chosen, and no other. */
  lemma ArbitrateChooses(busy: seq<bool>, mask: seq<bool>)
    requires |busy| == |mask| == PHYS
    ensures AtMostOne(Arbitrate(busy, mask))
    ensures forall k :: 0 <= k < PHYS && Arbitrate(busy, mask)[k] ==> !busy[k] && mask[k]
    ensures forall j, k :: 0 <= j < k < PHYS && Arbitrate(busy, mask)[k] ==> busy[j] || !mask[j]
    ensures forall k :: 0 <= k < PHYS && !busy[k] && mask[k] ==> Any(Arbitrate(busy, mask))
  {
    var s := Arbitrate(busy, mask);
    if k :| 0 <= k < PHYS && !busy[k] && mask[k] {
      var j := First(busy, mask, k);
      assert s[j];
    }
  }

  lemma First(busy: seq<bool>, mask: seq<bool>, k: nat) returns (j: nat)
    requires |busy| == |mask| == PHYS && k < PHYS && !busy[k] && mask[k]
    ensures j < PHYS && Arbitrate(busy, mask)[j]
  {
    j := if !busy[0] && mask[0] then 0 else if !busy[1] && mask[1] then 1 else if !busy[2] && mask[2] then 2
         else if !busy[3] && mask[3] then 3 else 4;
  }

  class TxCModule {
    var state: State
    var sel: seq<bool>

    ghost function View(): TxC
      reads this
    {
      TxC(state, sel)
    }

    method Step(i: In)
      requires Sized(i) && |sel| == PHYS
      modifies this
      ensures |sel| == PHYS && View() == Next(old(View()), i)
    {
      hide Any;
      var nxt := state;
      match state {
        case Idle => if Any(sel) { nxt := Req; }
        case Req => if i.taskVld { nxt := Sent; }
        case Sent => if i.done { nxt := Idle; }
      }
      if i.rst || i.flush || (state.Sent? && nxt.Idle?) {
        sel := Only(PHYS);
      } else if state.Idle? {
        if !i.busy[0] && i.mask[0] {
          sel := Only(0);
        } else if !i.busy[1] && i.mask[1] {
          sel := Only(1);
        } else if !i.busy[2] && i.mask[2] {
          sel := Only(2);
        } else if !i.busy[3] && i.mask[3] {
          sel := Only(3);
        } else if !i.busy[4] && i.mask[4] {
          sel := Only(4);
        } else {
          sel := Only(PHYS);
        }
      }
      state := if i.rst || i.flush then Idle else nxt;
    }
  }
}
