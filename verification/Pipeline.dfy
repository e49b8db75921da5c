/** Running a pipeline: how command_execute wires the descriptors of the shell and of its children. */
module Pipeline {
  import opened Descriptors

  /** A simple command, by what command_execute does with its first argument. */
  datatype Simple = Exit | Cd | SetEnv | UnsetEnv | Program

  datatype Name = Default | Named(file: string)

  datatype Command = Command(cmds: seq<Simple>, inFile: Name, outFile: Name, errFile: Name, appended: bool)

  /** Which calls of the operating system succeed. */
  datatype Os = Os(inOk: bool, outOk: bool, errOk: bool, pipeOk: nat -> bool, forkOk: nat -> bool)

  /** How a call of command_execute ends: nothing to do, the shell exits at command i, it returns
    early at command i, or all commands are started. */
  datatype Outcome = NoCommands | Exited(i: nat) | Returned(i: nat) | Completed

  datatype Fate = Continue | Leave | Return

  /** What happens at command i. */
  function FateOf(c: Command, os: Os, i: nat): Fate
    requires i < |c.cmds|
  {
    if c.cmds[i].Exit? then Leave
    else if i < |c.cmds| - 1 && !os.pipeOk(i) then Leave
    else if !c.cmds[i].Program? then Return
    else if !os.forkOk(i) then Return
    else Continue
  }

  function OutcomeFrom(c: Command, os: Os, i: nat): Outcome
    requires i <= |c.cmds|
    decreases |c.cmds| - i
  {
    if i == |c.cmds| then Completed
    else match FateOf(c, os, i)
      case Leave => Exited(i)
      case Return => Returned(i)
      case Continue => OutcomeFrom(c, os, i + 1)
  }

  // ---- The intended wiring ----

  /** The shell is started with its three standard descriptors open. */
  predicate StdOpen(t: Table) {
    0 in t && 1 in t && 2 in t && forall fd | fd in t :: fd >= 0
  }

  // Where the standard descriptors are saved, and the descriptor used for everything else.
  function SaveIn(t: Table): int { LowestFree(t) }
  function SaveOut(t: Table): int { FreeFrom(t, LowestFree(t) + 1) }
  function SaveErr(t: Table): int { FreeFrom(t, FreeFrom(t, LowestFree(t) + 1) + 1) }
  function Spare(t: Table): int { FreeFrom(t, FreeFrom(t, FreeFrom(t, LowestFree(t) + 1) + 1) + 1) }

  function Saved(t: Table): Table
    requires StdOpen(t)
  {
    t[SaveIn(t) := t[0]][SaveOut(t) := t[1]][SaveErr(t) := t[2]]
  }

  /** Standard input of command i: the input file or the shell's, then the pipe before. */
  function StdinOf(c: Command, os: Os, t: Table, i: nat): End
    requires StdOpen(t)
  {
    if i > 0 then PipeRead(i - 1)
    else if c.inFile.Named? && os.inOk then File(c.inFile.file, ReadOnly)
    else t[0]
  }

  /** Standard output of command i: its pipe; for the last one the output file or the shell's. If the
    file cannot be opened it keeps what the command before had. */
  function StdoutOf(c: Command, os: Os, t: Table, i: nat): End
    requires StdOpen(t) && i < |c.cmds|
  {
    if i < |c.cmds| - 1 then PipeWrite(i)
    else if c.outFile.Default? then t[1]
    else if os.outOk then File(c.outFile.file, if c.appended then Append else Truncate)
    else if i == 0 then t[1]
    else PipeWrite(i - 1)
  }

  function StderrOf(c: Command, os: Os, t: Table, i: nat): End
    requires StdOpen(t)
  {
    if i == |c.cmds| - 1 && c.errFile.Named? && os.errOk then File(c.errFile.file, Append) else t[2]
  }

  /** The whole table of child i: the inherited one, the saved copies, its standard descriptors, and,
    but for the last, the read end of its own pipe in the spare descriptor. */
  function ChildTable(c: Command, os: Os, t: Table, i: nat): Table
    requires StdOpen(t) && i < |c.cmds|
  {
    var u := Saved(t)[0 := StdinOf(c, os, t, i)][1 := StdoutOf(c, os, t, i)][2 := StderrOf(c, os, t, i)];
    if i < |c.cmds| - 1 then u[Spare(t) := PipeRead(i)] else u
  }

  // ---- The table on the way ----

  /** The descriptor of the input of command i, and the parent's table before it is connected. */
  function InputFd(c: Command, os: Os, t: Table, i: nat): int {
    if i == 0 && c.inFile.Named? && !os.inOk then FAILED else Spare(t)
  }

  function Before(c: Command, os: Os, t: Table, i: nat): Table
    requires StdOpen(t) && i < |c.cmds|
  {
    if i > 0 then ChildTable(c, os, t, i - 1)
    else if InputFd(c, os, t, 0) == FAILED then Saved(t)
    else Saved(t)[Spare(t) := StdinOf(c, os, t, 0)]
  }

  lemma BeforeNext(c: Command, os: Os, t: Table, i: nat)
    requires StdOpen(t) && 0 < i <= |c.cmds|
    ensures i < |c.cmds| ==> Before(c, os, t, i) == ChildTable(c, os, t, i - 1) && InputFd(c, os, t, i) == Spare(t)
  {
  }

  /** The table once the input of command i is connected: its standard output is still what the
    command before had. */
  function Connected(c: Command, os: Os, t: Table, i: nat): Table
    requires StdOpen(t) && i < |c.cmds|
  {
    Saved(t)[0 := StdinOf(c, os, t, i)][1 := if i == 0 then t[1] else PipeWrite(i - 1)]
  }

  lemma InputTaken(c: Command, os: Os, t: Table, i: nat)
    requires StdOpen(t) && i < |c.cmds|
    ensures Dup2Table(Before(c, os, t, i), InputFd(c, os, t, i), 0) - {InputFd(c, os, t, i)}
            == Connected(c, os, t, i)
  {
    SavedBy(t);
  }

  lemma ConnectedFacts(c: Command, os: Os, t: Table, i: nat)
    requires StdOpen(t) && i < |c.cmds|
    ensures var u := Connected(c, os, t, i);
            && LowestFree(u) == Spare(t) && Spare(t) > 2 && FAILED !in u
            && SaveOut(t) in u && u[SaveOut(t)] == t[1] && SaveErr(t) in u && u[SaveErr(t)] == t[2]
            && 2 in u && u[2] == t[2]
            && u[1 := if i == 0 then t[1] else PipeWrite(i - 1)] == u
  {
    SavedBy(t);
    assert Connected(c, os, t, i).Keys == Saved(t).Keys;
    FreeIs(Connected(c, os, t, i), Spare(t));
  }

  /** The descriptor that becomes standard output, and the table holding it. */
  function OutputFd(c: Command, os: Os, t: Table, i: nat): int
    requires i < |c.cmds|
  {
    if i < |c.cmds| - 1 then FreeFrom(t, Spare(t) + 1)
    else if c.outFile.Named? && !os.outOk then FAILED
    else Spare(t)
  }

  function BeforeOutput(c: Command, os: Os, t: Table, i: nat): Table
    requires StdOpen(t) && i < |c.cmds|
  {
    var u := Connected(c, os, t, i);
    if i < |c.cmds| - 1 then u[Spare(t) := PipeRead(i)][OutputFd(c, os, t, i) := PipeWrite(i)]
    else
      var v := u[2 := StderrOf(c, os, t, i)];
      if OutputFd(c, os, t, i) == FAILED then v else v[Spare(t) := StdoutOf(c, os, t, i)]
  }

  lemma ErrFacts(c: Command, os: Os, t: Table, i: nat)
    requires StdOpen(t) && i < |c.cmds|
    ensures var v := Connected(c, os, t, i)[2 := StderrOf(c, os, t, i)];
            LowestFree(v) == Spare(t) && SaveOut(t) in v && v[SaveOut(t)] == t[1]
  {
    SavedBy(t);
    assert Connected(c, os, t, i)[2 := StderrOf(c, os, t, i)].Keys == Saved(t).Keys;
    FreeIs(Connected(c, os, t, i)[2 := StderrOf(c, os, t, i)], Spare(t));
  }

  lemma PipeMade(c: Command, os: Os, t: Table, i: nat)
    requires StdOpen(t) && i < |c.cmds| - 1
    ensures var u := Connected(c, os, t, i);
            && LowestFree(u) == Spare(t)
            && LowestFree(u[Spare(t) := PipeRead(i)]) == OutputFd(c, os, t, i)
            && u[Spare(t) := PipeRead(i)][OutputFd(c, os, t, i) := PipeWrite(i)] == BeforeOutput(c, os, t, i)
  {
    ConnectedFacts(c, os, t, i);
    SavedBy(t);
    var u := Connected(c, os, t, i)[Spare(t) := PipeRead(i)];
    assert u.Keys == Saved(t).Keys + {Spare(t)};
    FreeIs(u, FreeFrom(t, Spare(t) + 1));
  }

  lemma OutputTaken(c: Command, os: Os, t: Table, i: nat)
    requires StdOpen(t) && i < |c.cmds|
    ensures Dup2Table(BeforeOutput(c, os, t, i), OutputFd(c, os, t, i), 1) - {OutputFd(c, os, t, i)}
            == ChildTable(c, os, t, i)
  {
    SavedBy(t);
    ConnectedFacts(c, os, t, i);
  }

  lemma SavedBy(t: Table)
    requires StdOpen(t)
    ensures var a := t[SaveIn(t) := t[0]];
            var b := a[SaveOut(t) := t[1]];
            && SaveOut(t) == LowestFree(a) && SaveErr(t) == LowestFree(b)
            && Spare(t) == LowestFree(Saved(t))
            && 2 < SaveIn(t) < SaveOut(t) < SaveErr(t) < Spare(t)
  {
    var a := t[SaveIn(t) := t[0]];
    var b := a[SaveOut(t) := t[1]];
    FreeIs(a, SaveOut(t));
    FreeIs(b, SaveErr(t));
    FreeIs(Saved(t), Spare(t));
    assert SaveIn(t) > 2 by {
      assert SaveIn(t) != 0 && SaveIn(t) != 1 && SaveIn(t) != 2;
    }
  }

  // ---- The shell ----

  /** What a call on table t leaves: its outcome, the table of every child it started, and the shell's
    own table, which is the old one on completion and the one child r.i would have had on an early
    return. A shell that exits has no table any more. */
  ghost predicate Leaves(c: Command, os: Os, t: Table, r: Outcome, children: seq<Table>, fds: Table)
    requires StdOpen(t)
  {
    && r == (if c.cmds == [] then NoCommands else OutcomeFrom(c, os, 0))
    && (r.NoCommands? ==> fds == t && children == [])
    && (r.Completed? ==> fds == t && |children| == |c.cmds|)
    && (r.Exited? || r.Returned? ==> |children| == r.i < |c.cmds|)
    && (r.Returned? ==> fds == ChildTable(c, os, t, r.i))
    && forall k | 0 <= k < |children| :: k < |c.cmds| && children[k] == ChildTable(c, os, t, k)
  }

  class Shell {
    var fds: Table
    var children: seq<Table>  // the descriptor tables of the children, as forked

    method Dup(fd: int) returns (r: int)
      modifies this`fds
      ensures r == (if fd in old(fds) then LowestFree(old(fds)) else FAILED)
      ensures fds == if fd in old(fds) then old(fds)[r := old(fds)[fd]] else old(fds)
    {
      if fd !in fds {
        return FAILED;
      }
      r := LowestFree(fds);
      fds := fds[r := fds[fd]];
    }

    method Dup2(fd: int, to: int)
      modifies this`fds
      ensures fds == Dup2Table(old(fds), fd, to)
    {
      fds := Dup2Table(fds, fd, to);
    }

    method Close(fd: int)
      modifies this`fds
      ensures fds == old(fds) - {fd}
    {
      fds := fds - {fd};
    }

    method Open(file: End, ok: bool) returns (r: int)
      modifies this`fds
      ensures r == (if ok then LowestFree(old(fds)) else FAILED)
      ensures fds == if ok then old(fds)[r := file] else old(fds)
    {
      if !ok {
        return FAILED;
      }
      r := LowestFree(fds);
      fds := fds[r := file];
    }

    method Pipe(i: nat, ok: bool) returns (success: bool, read: int, write: int)
      modifies this`fds
      ensures success == ok
      ensures !ok ==> fds == old(fds)
      ensures ok ==>
                && read == LowestFree(old(fds)) && write == LowestFree(old(fds)[read := PipeRead(i)])
                && fds == old(fds)[read := PipeRead(i)][write := PipeWrite(i)]
    {
      success, read, write := ok, FAILED, FAILED;
      if ok {
        read := LowestFree(fds);
        fds := fds[read := PipeRead(i)];
        write := LowestFree(fds);
        fds := fds[write := PipeWrite(i)];
      }
    }

    /** fork and exec: the child starts with a copy of the table. */
    method Fork(ok: bool)
      modifies this`children
      ensures children == if ok then old(children) + [fds] else old(children)
    {
      if ok {
        children := children + [fds];
      }
    }

    /** Lines 237 to 249: save the standard descriptors and open the initial input. */
    method Save(c: Command, os: Os) returns (tmpin: int, tmpout: int, tmperr: int, fdin: int)
      requires StdOpen(fds) && c.cmds != []
      modifies this`fds
      ensures tmpin == SaveIn(old(fds)) && tmpout == SaveOut(old(fds)) && tmperr == SaveErr(old(fds))
      ensures fdin == InputFd(c, os, old(fds), 0) && fds == Before(c, os, old(fds), 0)
      ensures c.inFile.Default? ==> fdin in fds && fds[fdin] == old(fds)[0]
      ensures c.inFile.Named? && os.inOk ==> fdin in fds && fds[fdin] == File(c.inFile.file, ReadOnly)
    {
      ghost var t := fds;
      SavedBy(t);
      tmpin := Dup(0);
      tmpout := Dup(1);
      tmperr := Dup(2);
      if c.inFile.Named? {
        fdin := Open(File(c.inFile.file, ReadOnly), os.inOk);
      } else {
        fdin := Dup(tmpin);
      }
    }

    /** Lines 272 to 300: the error and output files of the last command. */
    method OpenLast(c: Command, os: Os, tmpout: int, tmperr: int, ghost t: Table) returns (fdout: int)
      requires StdOpen(t) && c.cmds != [] && tmpout == SaveOut(t) && tmperr == SaveErr(t)
      requires fds == Connected(c, os, t, |c.cmds| - 1)
      modifies this`fds
      ensures fdout == OutputFd(c, os, t, |c.cmds| - 1)
      ensures fds == BeforeOutput(c, os, t, |c.cmds| - 1)
      ensures c.outFile.Default? ==> fdout in fds && fds[fdout] == t[1]
      ensures c.outFile.Named? && os.outOk ==>
                fdout in fds && fds[fdout] == File(c.outFile.file, if c.appended then Append else Truncate)
      ensures 2 in fds && fds[2] == if c.errFile.Named? && os.errOk then File(c.errFile.file, Append) else t[2]
    {
      hide Saved, Spare, SaveOut, SaveErr, StdinOf;
      ghost var i := |c.cmds| - 1;
      ConnectedFacts(c, os, t, i);
      var fderr;
      if c.errFile.Named? {
        fderr := Open(File(c.errFile.file, Append), os.errOk);
      } else {
        fderr := Dup(tmperr);
      }
      Dup2(fderr, 2);
      Close(fderr);
      assert fds == Connected(c, os, t, i)[2 := StderrOf(c, os, t, i)];
      ErrFacts(c, os, t, i);

      if c.outFile.Named? {
        fdout := Open(File(c.outFile.file, if c.appended then Append else Truncate), os.outOk);
      } else {
        fdout := Dup(tmpout);
      }
    }

    /** Lines 267 to 316: connect command i and leave the next input in next. */
    method Wire(c: Command, os: Os, i: nat, fdin: int, tmpout: int, tmperr: int, ghost t: Table)
      returns (success: bool, next: int)
      requires StdOpen(t) && i < |c.cmds| && tmpout == SaveOut(t) && tmperr == SaveErr(t)
      requires fdin == InputFd(c, os, t, i) && fds == Before(c, os, t, i)
      modifies this`fds
      ensures success <==> i == |c.cmds| - 1 || os.pipeOk(i)
      ensures success ==> fds == ChildTable(c, os, t, i)
      ensures success && i < |c.cmds| - 1 ==> next == Spare(t)
    {
      hide Before, InputFd, OutputFd, BeforeOutput, Connected, ChildTable;
      next := fdin;
      Dup2(fdin, 0);
      Close(fdin);
      InputTaken(c, os, t, i);

      var fdout;
      if i == |c.cmds| - 1 {
        fdout := OpenLast(c, os, tmpout, tmperr, t);
      } else {
        var read, write;
        success, read, write := Pipe(i, os.pipeOk(i));
        if !success {
          return;
        }
        fdout := write;
        next := read;
        PipeMade(c, os, t, i);
      }
      Dup2(fdout, 1);
      Close(fdout);
      OutputTaken(c, os, t, i);
      success := true;
    }

    /** Lines 398 to 403. */
    method Restore(tmpin: int, tmpout: int, tmperr: int, ghost c: Command, ghost os: Os, ghost t: Table)
      requires StdOpen(t) && c.cmds != [] && fds == ChildTable(c, os, t, |c.cmds| - 1)
      requires tmpin == SaveIn(t) && tmpout == SaveOut(t) && tmperr == SaveErr(t)
      modifies this`fds
      ensures fds == t
    {
      hide FreeFrom, LowestFree;
      SavedBy(t);
      Dup2(tmpin, 0);
      Dup2(tmpout, 1);
      Dup2(tmperr, 2);
      Close(tmpin);
      Close(tmpout);
      Close(tmperr);
    }

    method CommandExecute(c: Command, os: Os) returns (r: Outcome)
      requires 0 in fds && 1 in fds && 2 in fds && (forall fd | fd in fds :: fd >= 0) && children == []
      modifies this
      ensures Leaves(c, os, old(fds), r, children, fds)
    {
      hide ChildTable, Before, InputFd, Saved, SaveIn, SaveOut, SaveErr, Spare, Dup2Table;
      if |c.cmds| == 0 {
        return NoCommands;
      }
      if c.cmds[0].Exit? {
        return Exited(0);
      }
      ghost var t := fds;

      var tmpin, tmpout, tmperr, fdin := Save(c, os);

      var i := 0;
      while i < |c.cmds|
        invariant 0 <= i <= |c.cmds| && |children| == i
        invariant OutcomeFrom(c, os, 0) == OutcomeFrom(c, os, i)
        invariant i < |c.cmds| ==> fdin == InputFd(c, os, t, i) && fds == Before(c, os, t, i)
        invariant i == |c.cmds| ==> fds == ChildTable(c, os, t, i - 1)
        invariant forall k | 0 <= k < i :: children[k] == ChildTable(c, os, t, k)
      {
        if c.cmds[i].Exit? {
          return Exited(i);
        }
        var success;
        success, fdin := Wire(c, os, i, fdin, tmpout, tmperr, t);
        if !success {
          return Exited(i);
        }
        if c.cmds[i].Cd? || c.cmds[i].SetEnv? || c.cmds[i].UnsetEnv? {
          return Returned(i);
        }
        Fork(os.forkOk(i));
        if !os.forkOk(i) {
          return Returned(i);
        }
        i := i + 1;
        BeforeNext(c, os, t, i);
      }
      Restore(tmpin, tmpout, tmperr, c, os, t);
      return Completed;
    }
  }

  // ---- What the wiring means ----

  /** The shell holds no pipe ends between commands. */
  predicate NoPipes(t: Table) {
    forall fd | fd in t :: t[fd].Inherited?
  }

  /** The output of each command but the last is the input of the next, and no other standard input
    is on that pipe; only the last one's errors may be redirected; every other descriptor the shell
    was started with is passed on unchanged. */
  lemma PipesConnect(c: Command, os: Os, t: Table, i: nat)
    requires StdOpen(t) && NoPipes(t) && i < |c.cmds|
    ensures i < |c.cmds| - 1 ==>
              ChildTable(c, os, t, i)[1] == PipeWrite(i) && ChildTable(c, os, t, i + 1)[0] == PipeRead(i)
    ensures forall j: nat :: ChildTable(c, os, t, i)[0] == PipeRead(j) <==> i == j + 1
    ensures i < |c.cmds| - 1 ==> ChildTable(c, os, t, i)[2] == t[2]
    ensures forall fd | fd in t && fd > 2 :: fd in ChildTable(c, os, t, i) && ChildTable(c, os, t, i)[fd] == t[fd]
  {
    SavedBy(t);
  }

  /** The table that command i was given: its child's, or, for a builtin, the shell's. */
  predicate Given(r: Outcome, children: seq<Table>, fds: Table, i: nat, u: Table) {
    (i < |children| && u == children[i]) || (r == Returned(i) && u == fds)
  }

  /** The outer ends of a pipeline. The first command reads the input file, if one is named and opens,
    and the shell's input otherwise. The last one writes to the output file, appended to or truncated
    as asked, and reports to the error file, always appended to; to the shell's output and errors if
    none is named, or the error file does not open. With an output file that does not open, the
    standard output stays what it was: the shell's, or the pipe that the command itself reads. */
  lemma OuterEnds(c: Command, os: Os, t: Table, r: Outcome, children: seq<Table>, fds: Table, i: nat, u: Table)
    requires StdOpen(t) && Leaves(c, os, t, r, children, fds) && Given(r, children, fds, i, u)
    ensures i < |c.cmds| && 0 in u && 1 in u && 2 in u
    ensures i == 0 && c.inFile.Named? && os.inOk ==> u[0] == File(c.inFile.file, ReadOnly)
    ensures i == 0 && (c.inFile.Default? || !os.inOk) ==> u[0] == t[0]
    ensures i == |c.cmds| - 1 ==>
              match c.outFile
              case Default => u[1] == t[1]
              case Named(f) =>
                && (os.outOk && c.appended ==> u[1] == File(f, Append))
                && (os.outOk && !c.appended ==> u[1] == File(f, Truncate))
                && (!os.outOk && i == 0 ==> u[1] == t[1])
                && (!os.outOk && i > 0 ==> u[1] == PipeWrite(i - 1) && u[0] == PipeRead(i - 1))
    ensures i == |c.cmds| - 1 && c.errFile.Named? && os.errOk ==> u[2] == File(c.errFile.file, Append)
    ensures i == |c.cmds| - 1 && (c.errFile.Default? || !os.errOk) ==> u[2] == t[2]
  {
    SavedBy(t);
  }

  /** Whatever else holds the read end of pipe j: only the child that writes the pipe, in the spare
    descriptor. */
  lemma ReadEnds(c: Command, os: Os, t: Table, i: nat, j: nat, fd: int)
    requires StdOpen(t) && NoPipes(t) && i < |c.cmds|
    ensures fd in ChildTable(c, os, t, i) && ChildTable(c, os, t, i)[fd] == PipeRead(j)
            <==> (fd == 0 && i == j + 1) || (fd == Spare(t) && i == j < |c.cmds| - 1)
  {
    SavedBy(t);
  }

  /** Descriptor fd of child i is the write end of pipe j. */
  predicate HoldsWriteEnd(c: Command, os: Os, t: Table, i: nat, j: nat, fd: int)
    requires StdOpen(t) && i < |c.cmds|
  {
    fd in ChildTable(c, os, t, i) && ChildTable(c, os, t, i)[fd] == PipeWrite(j)
  }

  lemma WriteEnds(c: Command, os: Os, t: Table, i: nat, j: nat, fd: int)
    requires StdOpen(t) && NoPipes(t) && i < |c.cmds|
    ensures HoldsWriteEnd(c, os, t, i, j, fd)
            <==> fd == 1 && ((i == j < |c.cmds| - 1)
                             || (i == j + 1 == |c.cmds| - 1 && c.outFile.Named? && !os.outOk))
  {
    SavedBy(t);
  }

  /** Every write end that a child holds is that of its own pipe, as standard output. */
  ghost predicate OwnEndsOnly(children: seq<Table>) {
    forall k, fd | 0 <= k < |children| && fd in children[k] && children[k][fd].PipeWrite? ::
      children[k][fd].i == k && fd == 1
  }

  /** A reader sees end of file when its writer is done: the children hold only their own write ends,
    and the shell holds none. */
  ghost predicate Private(children: seq<Table>, fds: Table) {
    OwnEndsOnly(children) && forall fd | fd in fds :: !fds[fd].PipeWrite?
  }

  /** The output file of a pipeline of several commands cannot be opened. */
  predicate LastFeedsItself(c: Command, os: Os) {
    |c.cmds| > 1 && c.outFile.Named? && !os.outOk
  }

  /** Among the children, the only offender is a last command whose output file could not be opened:
    it writes into its own input pipe. */
  lemma ChildrenPrivate(c: Command, os: Os, t: Table, r: Outcome, children: seq<Table>, fds: Table)
    requires StdOpen(t) && NoPipes(t) && Leaves(c, os, t, r, children, fds)
    ensures OwnEndsOnly(children) <==> !(r.Completed? && LastFeedsItself(c, os))
  {
    hide ChildTable;
    var n := |c.cmds|;
    OutcomeIs(c, os, 0);
    forall k, fd | 0 <= k < |children| && fd in children[k] && children[k][fd].PipeWrite?
      ensures fd == 1 && (children[k][fd].i == k || (r.Completed? && LastFeedsItself(c, os)))
    {
      WriteEnds(c, os, t, k, children[k][fd].i, fd);
    }
    if r.Completed? && LastFeedsItself(c, os) {
      WriteEnds(c, os, t, n - 1, n - 2, 1);
      assert children[n - 1][1] == PipeWrite(n - 2);
    }
  }

  /** When the shell survives a call, the write ends are private with two exceptions: it returned before
    the last command, and so keeps the write end of a pipe whose writer was never started; or it got
    to the last of several commands and could not open its output file. */
  lemma WriteEndsPrivate(c: Command, os: Os, t: Table, r: Outcome, children: seq<Table>, fds: Table)
    requires StdOpen(t) && NoPipes(t) && Leaves(c, os, t, r, children, fds) && !r.Exited?
    ensures Private(children, fds) <==>
              !((r.Returned? && r.i < |c.cmds| - 1)
                || ((r.Completed? || (r.Returned? && r.i == |c.cmds| - 1)) && LastFeedsItself(c, os)))
  {
    hide ChildTable;
    ChildrenPrivate(c, os, t, r, children, fds);
    if r.Returned? {
      forall fd | fd in fds && fds[fd].PipeWrite?
        ensures r.i < |c.cmds| - 1 || LastFeedsItself(c, os)
      {
        WriteEnds(c, os, t, r.i, fds[fd].i, fd);
      }
      if r.i < |c.cmds| - 1 {
        WriteEnds(c, os, t, r.i, r.i, 1);
        assert fds[1].PipeWrite?;
      } else if LastFeedsItself(c, os) {
        WriteEnds(c, os, t, r.i, r.i - 1, 1);
        assert fds[1].PipeWrite?;
      }
    }
  }

  /** A builtin in front of a pipe, as in cd | cat: nothing is started, and the shell keeps the write
    end as its standard output. */
  lemma BuiltinIntoPipe(os: Os, t: Table, r: Outcome, children: seq<Table>, fds: Table)
    requires StdOpen(t) && NoPipes(t) && os.pipeOk(0)
    requires Leaves(Command([Cd, Program], Default, Default, Default, false), os, t, r, children, fds)
    ensures r == Returned(0) && children == [] && 1 in fds && fds[1] == PipeWrite(0) && !Private(children, fds)
  {
    var c := Command([Cd, Program], Default, Default, Default, false);
    WriteEnds(c, os, t, 0, 0, 1);
    WriteEndsPrivate(c, os, t, r, children, fds);
  }

  predicate FirstStop(c: Command, os: Os, i: nat, k: nat) {
    && i <= k < |c.cmds| && !FateOf(c, os, k).Continue?
    && forall j | i <= j < k :: FateOf(c, os, j).Continue?
  }

  lemma FirstStopStep(c: Command, os: Os, i: nat, k: nat)
    requires i <= |c.cmds|
    ensures FirstStop(c, os, i, k) <==>
              i < |c.cmds| && if FateOf(c, os, i).Continue? then FirstStop(c, os, i + 1, k) else k == i
  {
  }

  /** The outcome is decided by the first command that does not let the loop continue. */
  lemma {:induction false} OutcomeIs(c: Command, os: Os, i: nat)
    requires i <= |c.cmds|
    ensures var r := OutcomeFrom(c, os, i);
            && !r.NoCommands?
            && (r.Completed? <==> forall k | i <= k < |c.cmds| :: FateOf(c, os, k).Continue?)
            && (forall k: nat :: r == Returned(k) <==> FirstStop(c, os, i, k) && FateOf(c, os, k).Return?)
            && (forall k: nat :: r == Exited(k) <==> FirstStop(c, os, i, k) && FateOf(c, os, k).Leave?)
    decreases |c.cmds| - i
  {
    hide FateOf, FirstStop;
    forall k: nat
      ensures FirstStop(c, os, i, k) <==>
                i < |c.cmds| && if FateOf(c, os, i).Continue? then FirstStop(c, os, i + 1, k) else k == i
    {
      FirstStopStep(c, os, i, k);
    }
    if i < |c.cmds| {
      OutcomeIs(c, os, i + 1);
    }
  }

  /** Everything before command k is a program, and was piped and forked. */
  predicate StartedBefore(c: Command, os: Os, k: nat) {
    forall j | 0 <= j < k && j < |c.cmds| :: c.cmds[j].Program? && os.forkOk(j) && os.pipeOk(j)
  }

  /** The shell exits at exit, and when a pipe cannot be made. */
  predicate ExitsAt(c: Command, os: Os, k: nat) {
    && k < |c.cmds| && StartedBefore(c, os, k)
    && (c.cmds[k].Exit? || (k < |c.cmds| - 1 && !os.pipeOk(k)))
  }

  /** It goes back to its prompt at a builtin, and when a fork fails, once the pipe is made. */
  predicate ReturnsAt(c: Command, os: Os, k: nat) {
    && k < |c.cmds| && StartedBefore(c, os, k) && (k < |c.cmds| - 1 ==> os.pipeOk(k))
    && (c.cmds[k].Cd? || c.cmds[k].SetEnv? || c.cmds[k].UnsetEnv? || (c.cmds[k].Program? && !os.forkOk(k)))
  }

  /** Every command is a program, and every fork and every pipe that is needed succeeds. */
  predicate AllStart(c: Command, os: Os) {
    forall k | 0 <= k < |c.cmds| :: c.cmds[k].Program? && os.forkOk(k) && (k < |c.cmds| - 1 ==> os.pipeOk(k))
  }

  /** The shell gets through the whole pipeline exactly when nothing stops it at any command. */
  lemma CompletedWhen(c: Command, os: Os)
    ensures OutcomeFrom(c, os, 0).Completed? <==> AllStart(c, os)
  {
    OutcomeIs(c, os, 0);
    forall k | 0 <= k < |c.cmds|
      ensures FateOf(c, os, k).Continue? <==>
                c.cmds[k].Program? && os.forkOk(k) && (k < |c.cmds| - 1 ==> os.pipeOk(k))
    {
    }
  }

  /** How every call ends: which commands make the shell exit, which send it back to its prompt, and
    that nothing else stops it. */
  lemma OutcomeWhen(c: Command, os: Os, t: Table, r: Outcome, children: seq<Table>, fds: Table)
    requires StdOpen(t) && Leaves(c, os, t, r, children, fds)
    ensures forall k: nat :: r == Exited(k) <==> ExitsAt(c, os, k)
    ensures forall k: nat :: r == Returned(k) <==> ReturnsAt(c, os, k)
    ensures r.Completed? <==> c.cmds != [] && AllStart(c, os)
    ensures r.NoCommands? <==> c.cmds == []
  {
    hide ChildTable;
    OutcomeIs(c, os, 0);
    CompletedWhen(c, os);
    forall k: nat
      ensures ExitsAt(c, os, k) <==> FirstStop(c, os, 0, k) && FateOf(c, os, k).Leave?
      ensures ReturnsAt(c, os, k) <==> FirstStop(c, os, 0, k) && FateOf(c, os, k).Return?
    {
      StopsAt(c, os, k);
    }
  }

  lemma StopsAt(c: Command, os: Os, k: nat)
    ensures ExitsAt(c, os, k) <==> FirstStop(c, os, 0, k) && FateOf(c, os, k).Leave?
    ensures ReturnsAt(c, os, k) <==> FirstStop(c, os, 0, k) && FateOf(c, os, k).Return?
  {
    if k < |c.cmds| {
      forall j | 0 <= j < k
        ensures FateOf(c, os, j).Continue? <==> c.cmds[j].Program? && os.forkOk(j) && os.pipeOk(j)
      {
      }
    }
  }

  /** A shell that survives the call has its own table back exactly when every command was started;
    this includes the call without commands. */
  lemma RestoredWhen(c: Command, os: Os, t: Table, r: Outcome, children: seq<Table>, fds: Table)
    requires StdOpen(t) && Leaves(c, os, t, r, children, fds) && !r.Exited?
    ensures fds == t <==> AllStart(c, os)
  {
    hide ChildTable;
    OutcomeIs(c, os, 0);
    CompletedWhen(c, os);
    if r.Returned? {
      EarlyReturnLeaks(c, os, t, r, children, fds);
    }
  }

  /** A lone builtin, as in cd: three descriptors stay open. */
  lemma LoneBuiltin(os: Os, t: Table, r: Outcome, children: seq<Table>, fds: Table)
    requires StdOpen(t) && Leaves(Command([Cd], Default, Default, Default, false), os, t, r, children, fds)
    ensures r == Returned(0) && |fds| == |t| + 3 && fds != t
  {
    var c := Command([Cd], Default, Default, Default, false);
    EarlyReturnLeaks(c, os, t, r, children, fds);
  }

  /** The call returns early exactly at a builtin or a failed fork that it gets to. Then the saved copies
    stay open, and the read end of the pipe if one was made: three descriptors more than before, or
    four. */
  lemma EarlyReturnLeaks(c: Command, os: Os, t: Table, r: Outcome, children: seq<Table>, fds: Table)
    requires StdOpen(t) && Leaves(c, os, t, r, children, fds)
    ensures r.Returned? <==> exists k: nat :: ReturnsAt(c, os, k)
    ensures r.Returned? ==> |fds| == |t| + (if r.i < |c.cmds| - 1 then 4 else 3) && fds != t
  {
    hide ChildTable;
    OutcomeWhen(c, os, t, r, children, fds);
    if r.Returned? {
      assert ReturnsAt(c, os, r.i);
      ChildTableSize(c, os, t, r.i);
    }
  }

  lemma ChildTableSize(c: Command, os: Os, t: Table, i: nat)
    requires StdOpen(t) && i < |c.cmds|
    ensures |ChildTable(c, os, t, i)| == |t| + if i < |c.cmds| - 1 then 4 else 3
  {
    SavedBy(t);
    SavedSize(t);
    var u, saves := ChildTable(c, os, t, i), Saved(t);
    var wired := saves[0 := StdinOf(c, os, t, i)][1 := StdoutOf(c, os, t, i)][2 := StderrOf(c, os, t, i)];
    hide ChildTable, Saved, SaveIn, SaveOut, SaveErr, Spare, StdinOf, StdoutOf, StderrOf;
    assert wired.Keys == saves.Keys;
    SameSize(saves, wired);
    if i < |c.cmds| - 1 {
      Added(wired, wired[Spare(t) := PipeRead(i)], Spare(t));
    }
  }

  lemma SavedSize(t: Table)
    requires StdOpen(t)
    ensures |Saved(t)| == |t| + 3 && 0 in Saved(t) && 1 in Saved(t) && 2 in Saved(t)
  {
    SavedBy(t);
    var a := t[SaveIn(t) := t[0]];
    var b := a[SaveOut(t) := t[1]];
    hide SaveIn, SaveOut, SaveErr, Spare;
    Added(t, a, SaveIn(t));
    Added(a, b, SaveOut(t));
    Added(b, Saved(t), SaveErr(t));
  }

  lemma SameSize(t: Table, u: Table)
    requires t.Keys == u.Keys
    ensures |t| == |u|
  {
    assert |u| == |u.Keys| && |t| == |t.Keys|;
  }

  lemma Added(t: Table, u: Table, fd: int)
    requires fd !in t && u.Keys == t.Keys + {fd}
    ensures |u| == |t| + 1
  {
    assert |u| == |u.Keys| && |t| == |t.Keys|;
  }
}
