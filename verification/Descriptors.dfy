/** File descriptor tables and the calls that change them. */
module Descriptors {

  datatype Access = ReadOnly | Append | Truncate

  /** What a descriptor is open on: something the shell was started with, a file, or an end of the
    pipe made for command i. */
  datatype End = Inherited(id: int) | File(name: string, access: Access) | PipeRead(i: nat) | PipeWrite(i: nat)

  type Table = map<int, End>

  const FAILED := -1

  /** The least free descriptor at or above k. */
  function FreeFrom(t: Table, k: nat): (fd: nat)
    ensures k <= fd && fd !in t
    ensures forall j: nat | k <= j < fd :: j in t
    decreases |t|
  {
    if k in t then
      assert |t - {k}| < |t| by { Fewer(t, k); }
      var fd := FreeFrom(t - {k}, k + 1);
      assert forall j: nat | k <= j < fd :: j in t by {
        forall j: nat | k <= j < fd ensures j in t {
          assert j == k || j in t - {k};
        }
      }
      fd
    else k
  }

  lemma Fewer(t: Table, k: int)
    requires k in t
    ensures |t - {k}| < |t|
  {
    assert (t - {k}).Keys == t.Keys - {k};
    assert |t.Keys - {k}| == |t.Keys| - 1;
    assert |t - {k}| == |(t - {k}).Keys| && |t| == |t.Keys|;
  }

  function LowestFree(t: Table): (fd: nat)
    ensures fd !in t
    ensures forall j: nat | j < fd :: j in t
  {
    FreeFrom(t, 0)
  }

  lemma FreeIs(t: Table, fd: nat)
    requires fd !in t && forall j: nat | j < fd :: j in t
    ensures LowestFree(t) == fd
  {
  }

  function Dup2Table(t: Table, fd: int, to: int): Table {
    if fd in t then t[to := t[fd]] else t
  }
}
