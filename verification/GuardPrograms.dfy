/** The guard-byte programs as they run: two loops over one mapping that is changed in place,
    their memset and memcpy going up byte by byte, interrupted anywhere by a scheduler. Every
    execution is a run of the protocol in GuardHandshake. */
module GuardPrograms {
  import opened Indexing
  import opened GuardHandshake
  import opened Runs

  /** The line a process is at. */
  datatype Line = Opening | Fill | Notify | Wait | Copy | Done

  ghost predicate IsDone(s: State, server: bool) {
    if server then s.server.SDone? else s.client.CDone?
  }

  /** The run takes the steps the schedule asks for (true: the server's), in order, leaving out
      those asked of a process that is done by then, and no others. */
  ghost predicate Obeys(p: Params, s: State, schedule: seq<bool>, run: seq<Action>)
    decreases |schedule|
  {
    if schedule == [] then run == []
    else
      var n, m := |schedule| - 1, |run| - 1;
      if IsDone(After(Handshake(p), s, run), schedule[n]) && Obeys(p, s, schedule[..n], run) then true
      else
        && run != [] && run[m].ByServer? == schedule[n]
        && !IsDone(After(Handshake(p), s, run[..m]), schedule[n])
        && Obeys(p, s, schedule[..n], run[..m])
  }

  lemma ObeysOneMore(p: Params, s: State, schedule: seq<bool>, run: seq<Action>, a: Action)
    requires Obeys(p, s, schedule, run) && !IsDone(After(Handshake(p), s, run), a.ByServer?)
    ensures Obeys(p, s, schedule + [a.ByServer?], run + [a])
  {
    assert (schedule + [a.ByServer?])[..|schedule|] == schedule && (run + [a])[..|run|] == run;
  }

  lemma ObeysOneLess(p: Params, s: State, schedule: seq<bool>, run: seq<Action>, server: bool)
    requires Obeys(p, s, schedule, run) && IsDone(After(Handshake(p), s, run), server)
    ensures Obeys(p, s, schedule + [server], run)
  {
    assert (schedule + [server])[..|schedule|] == schedule;
  }

  class Mapping {
    const base: nat
    const size: nat
    const count: nat
    const mark: char

    const mem: array<char>
    const sBuf: array<char>
    const cBuf: array<char>

    // where run_server and run_client are: line, round, byte
    var sLine: Line
    var sRound: nat
    var sByte: nat
    var cLine: Line
    var cRound: nat
    var cByte: nat

    ghost function P(): Params {
      Params(base, size, count, mark)
    }

    ghost function FromByte(j: nat): set<nat>
      requires j <= size
    {
      Indices(size) - Indices(j)
    }

    lemma BytesToGo(j: nat)
      requires j <= size
      ensures FromByte(0) == Indices(size)
      ensures j == size ==> FromByte(j) == {}
      ensures j < size ==> j in FromByte(j) && FromByte(j + 1) == FromByte(j) - {j}
    {
    }

    ghost function ServerPc(): Server
      reads this`sLine, this`sRound, this`sByte
      requires sByte <= size
    {
      match sLine
      case Opening => SStart
      case Fill => SFill(sRound, FromByte(sByte))
      case Notify => SNotify(sRound)
      case Wait => SWait(sRound)
      case Copy => SCopy(sRound, FromByte(sByte))
      case Done => SDone
    }

    ghost function ClientPc(): Client
      reads this`cLine, this`cRound, this`cByte
      requires cByte <= size
    {
      match cLine
      case Opening => CStart
      case Wait => CWait(cRound)
      case Copy => CCopy(cRound, FromByte(cByte))
      case Fill => CFill(cRound, FromByte(cByte))
      case Notify => CNotify(cRound)
      case Done => CDone
    }

    ghost function View(): State
      reads this, mem, sBuf, cBuf
      requires sByte <= size && cByte <= size
    {
      State(mem[..], ServerPc(), ClientPc(), sBuf[..], cBuf[..])
    }

    ghost predicate Valid()
      reads this, mem, sBuf, cBuf
    {
      && P().Ok()
      && mem != sBuf && mem != cBuf && sBuf != cBuf
      && mem.Length == base + size && sBuf.Length == size && cBuf.Length == size
      && sByte <= size && cByte <= size
      && (sLine != Opening && sLine != Done ==> sRound < count)
      && (cLine != Opening && cLine != Done ==> cRound < count)
    }

    /** Maps a fresh segment; what it and the malloc'ed buffers hold is arbitrary. */
    constructor (base: nat, size: nat, count: nat, mark: char)
      requires Params(base, size, count, mark).Ok()
      ensures Valid() && P() == Params(base, size, count, mark)
      ensures Start(P(), View())
      ensures fresh(mem) && fresh(sBuf) && fresh(cBuf)
    {
      this.base, this.size, this.count, this.mark := base, size, count, mark;
      mem := new char[base + size];
      sBuf := new char[size];
      cBuf := new char[size];
      sLine, sRound, sByte := Opening, 0, 0;
      cLine, cRound, cByte := Opening, 0, 0;
    }

    /** One memory access, or one loop test, of run_server. */
    method ServerStep()
      requires Valid() && sLine != Done
      modifies this`sLine, this`sRound, this`sByte, mem, sBuf
      ensures Valid() && Enabled(P(), old(View()), ByServer(old(sByte)))
      ensures View() == Do(P(), old(View()), ByServer(old(sByte)))
    {
      ghost var before := View();
      BytesToGo(sByte);
      match sLine {
        case Opening =>
          if mem[0] == 's' {
            sLine, sRound, sByte := if 0 < count then Fill else Done, 0, 0;
          }
        case Fill =>
          ServerFill();
        case Notify =>
          mem[0] := 'c';
          assert mem[..] == before.mem[0 := 'c'];
          sLine := Wait;
        case Wait =>
          if mem[0] == 's' {
            sLine, sByte := Copy, 0;
          }
        case Copy =>
          ServerCopy();
      }
    }

    /** One byte, or the end, of the server's memset. */
    method ServerFill()
      requires Valid() && sLine == Fill
      modifies this`sLine, this`sByte, mem
      ensures Valid() && Enabled(P(), old(View()), ByServer(old(sByte)))
      ensures View() == Do(P(), old(View()), ByServer(old(sByte)))
    {
      ghost var before := View();
      BytesToGo(sByte);
      if sByte == size {
        sLine := Notify;
      } else {
        mem[base + sByte] := '*';
        assert mem[..] == before.mem[base + sByte := '*'];
        sByte := sByte + 1;
      }
    }

    /** One byte, or the end, of the server's memcpy. */
    method ServerCopy()
      requires Valid() && sLine == Copy
      modifies this`sLine, this`sRound, this`sByte, sBuf
      ensures Valid() && Enabled(P(), old(View()), ByServer(old(sByte)))
      ensures View() == Do(P(), old(View()), ByServer(old(sByte)))
    {
      ghost var before := View();
      BytesToGo(0);
      BytesToGo(sByte);
      if sByte == size {
        sLine, sRound, sByte := if sRound + 1 < count then Fill else Done, sRound + 1, 0;
      } else {
        sBuf[sByte] := mem[base + sByte];
        assert sBuf[..] == before.sBuf[sByte := before.mem[base + sByte]];
        sByte := sByte + 1;
      }
    }

    /** One memory access, or one loop test, of run_client. */
    method ClientStep()
      requires Valid() && cLine != Done
      modifies this`cLine, this`cRound, this`cByte, mem, cBuf
      ensures Valid() && Enabled(P(), old(View()), ByClient(old(cByte)))
      ensures View() == Do(P(), old(View()), ByClient(old(cByte)))
    {
      ghost var before := View();
      BytesToGo(cByte);
      match cLine {
        case Opening =>
          mem[0] := 's';
          assert mem[..] == before.mem[0 := 's'];
          cLine, cRound, cByte := if 0 < count then Wait else Done, 0, 0;
        case Wait =>
          if mem[0] == 'c' {
            cLine, cByte := Copy, 0;
          }
        case Copy =>
          ClientCopy();
        case Fill =>
          ClientFill();
        case Notify =>
          mem[0] := 's';
          assert mem[..] == before.mem[0 := 's'];
          cLine, cRound, cByte := if cRound + 1 < count then Wait else Done, cRound + 1, 0;
      }
    }

    /** One byte, or the end, of the client's memcpy. */
    method ClientCopy()
      requires Valid() && cLine == Copy
      modifies this`cLine, this`cByte, cBuf
      ensures Valid() && Enabled(P(), old(View()), ByClient(old(cByte)))
      ensures View() == Do(P(), old(View()), ByClient(old(cByte)))
    {
      ghost var before := View();
      BytesToGo(0);
      BytesToGo(cByte);
      if cByte == size {
        cLine, cByte := Fill, 0;
      } else {
        cBuf[cByte] := mem[base + cByte];
        assert cBuf[..] == before.cBuf[cByte := before.mem[base + cByte]];
        cByte := cByte + 1;
      }
    }

    /** One byte, or the end, of the client's memset. */
    method ClientFill()
      requires Valid() && cLine == Fill
      modifies this`cLine, this`cByte, mem
      ensures Valid() && Enabled(P(), old(View()), ByClient(old(cByte)))
      ensures View() == Do(P(), old(View()), ByClient(old(cByte)))
    {
      ghost var before := View();
      BytesToGo(cByte);
      if cByte == size {
        cLine := Notify;
      } else {
        mem[base + cByte] := mark;
        assert mem[..] == before.mem[base + cByte := mark];
        cByte := cByte + 1;
      }
    }

    /** A step of the server or the client, if it is not done. */
    method Step(server: bool) returns (ghost taken: seq<Action>)
      requires Valid()
      modifies this, mem, sBuf, cBuf
      ensures Valid()
      ensures IsDone(old(View()), server) ==> taken == [] && View() == old(View())
      ensures !IsDone(old(View()), server) ==>
                && |taken| == 1 && taken[0].ByServer? == server
                && Possible(P(), old(View()), taken[0]) && View() == Next(P(), old(View()), taken[0])
    {
      taken := [];
      if server && sLine != Done {
        taken := [ByServer(sByte)];
        ServerStep();
      } else if !server && cLine != Done {
        taken := [ByClient(cByte)];
        ClientStep();
      }
    }

    /** Runs both processes under a given schedule (true: the server's step). */
    method Execute(schedule: seq<bool>) returns (ghost run: seq<Action>)
      requires Valid()
      modifies this, mem, sBuf, cBuf
      ensures Valid() && Legal(Handshake(P()), old(View()), run) && View() == After(Handshake(P()), old(View()), run)
      ensures Obeys(P(), old(View()), schedule, run)
    {
      run := [];
      ghost var start := View();
      for k := 0 to |schedule|
        invariant Valid() && Legal(Handshake(P()), start, run) && View() == After(Handshake(P()), start, run)
        invariant Obeys(P(), start, schedule[..k], run)
      {
        assert schedule[..k + 1] == schedule[..k] + [schedule[k]];
        ghost var before := View();
        ghost var taken := Step(schedule[k]);
        if IsDone(before, schedule[k]) {
          ObeysOneLess(P(), start, schedule[..k], run, schedule[k]);
        } else {
          ObeysOneMore(P(), start, schedule[..k], run, taken[0]);
          OneStepMore(Handshake(P()), start, run, taken[0]);
          run := run + [taken[0]];
        }
      }
      assert schedule[..|schedule|] == schedule;
    }
  }
}
