/** rxc.v: which PHY's result goes into the receive FIFO. */
module RxC {
  import opened Phys

  /** rx_sel, rx_vld and rx_dat. */
  datatype RxC = RxC(sel: seq<bool>, vld: bool, dat: nat)

  /** What the receivers say: rx_start, rx_last and rx_dat of each. */
  datatype In = In(rst: bool, flush: bool, almostFull: bool, start: seq<bool>, last: seq<bool>, dat: seq<nat>)

  predicate Fits(c: RxC, i: In) { |c.sel| == |i.start| == |i.last| == |i.dat| == PHYS }

  predicate Finishes(sel: seq<bool>, last: seq<bool>)
    requires |sel| == |last|
  {
    exists k :: 0 <= k < |sel| && sel[k] && last[k]
  }

  /** The first PHY with a result to push. */
  function Pick(start: seq<bool>, sel: seq<bool>): (s: seq<bool>)
    requires |start| == |sel| == PHYS
    ensures |s| == PHYS
  {
    if start[0] then Only(0)
    else if start[1] then Only(1)
    else if start[2] then Only(2)
    else if start[3] then Only(3)
    else if start[4] then Only(4)
    else sel
  }

  /** The words of the selected PHY; as never more than one is selected, choosing is or-ing. */
  function Mux(sel: seq<bool>, dat: seq<nat>): nat
    requires |sel| == |dat| == PHYS
  {
    if sel[0] then dat[0] else if sel[1] then dat[1] else if sel[2] then dat[2]
    else if sel[3] then dat[3] else if sel[4] then dat[4] else 0
  }

  /** One clock edge. */
  function Next(c: RxC, i: In): (d: RxC)
    requires Fits(c, i)
    ensures |d.sel| == PHYS
  {
    RxC(if i.rst || i.flush then Only(PHYS)
        else if Finishes(c.sel, i.last) then Only(PHYS)
        else if !i.almostFull then Pick(i.start, c.sel)
        else c.sel,
        !i.rst && Any(c.sel), Mux(c.sel, i.dat))
  }

  lemma MuxOnly(k: nat, dat: seq<nat>)
    requires |dat| == PHYS && k < PHYS
    ensures Mux(Only(k), dat) == dat[k] && Any(Only(k))
  {
    assert Only(k)[k];
  }

  /** Of several results starting at once the first PHY's is picked. */
  lemma PickFirst(start: seq<bool>, sel: seq<bool>, k: nat)
    requires |start| == |sel| == PHYS && k < PHYS && start[k] && forall j :: 0 <= j < k ==> !start[j]
    ensures Pick(start, sel) == Only(k)
  {}

  lemma PickNone(start: seq<bool>, sel: seq<bool>)
    requires |start| == |sel| == PHYS && forall k :: 0 <= k < PHYS ==> !start[k]
    ensures Pick(start, sel) == sel
  {}

  class RxCModule {
    var sel: seq<bool>
    var vld: bool
    var dat: nat

    ghost function View(): RxC
      reads this
    {
      RxC(sel, vld, dat)
    }

    method Step(i: In)
      requires Fits(View(), i)
      modifies this
      ensures |sel| == PHYS && View() == Next(old(View()), i)
    {
      hide Any, Finishes, Only;
      var d := 0;
      if sel[0] { d := i.dat[0]; } else if sel[1] { d := i.dat[1]; } else if sel[2] { d := i.dat[2]; }
      else if sel[3] { d := i.dat[3]; } else if sel[4] { d := i.dat[4]; }
      vld, dat := !i.rst && Any(sel), d;
      if i.rst || i.flush || Finishes(sel, i.last) {
        sel := Only(PHYS);
      } else if !i.almostFull {
        if i.start[0] { sel := Only(0); }
        else if i.start[1] { sel := Only(1); }
        else if i.start[2] { sel := Only(2); }
        else if i.start[3] { sel := Only(3); }
        else if i.start[4] { sel := Only(4); }
      }
    }
  }
}
