/**
 What the demuxer learns from the program tables of any multiplexer: sections with descriptors, behind
 any adaptation field and any pointer byte.
 */
module ForeignTables {
  import opened Bytes
  import opened TsFields
  import opened DemuxSpec
  import opened FrameTrip
  import opened Units

  // ---------- Program association ----------

  // A pointer byte only where a section starts; its value is not looked at.
  function PointerBytes(p: Piece, pointer: byte): seq<byte> { if p.header.unitStart == 1 then [pointer] else [] }

  lemma PieceWindow(p: Piece, w: seq<byte>)
    requires WellFormed(p) && (p.header.adaptation == 1 || p.header.adaptation == 3) && PieceBytes(p) <= w
    ensures SkippedTo(p.header.(priority := 0), w) == 4 + |p.field|
  {
    hide PieceBytes, EncodeTs, DecodeTs, TsInWidth;
    PieceRead(p, w);
    if p.field != [] {
      HoldsAt(w, 4, p.field, 0);
    }
  }

  /** The first association learned names the PID of the map; its first program counts, whatever its number. */
  lemma AssociationLearned(st: State, p: Piece, pointer: byte, ph: PatHeader, number: u16, reserved: nat, mapPid: u16,
                           tail: seq<byte>, w: seq<byte>, base: nat)
    requires st.pmtId == 0 && WellFormed(p) && PieceBytes(p) <= w
    requires p.header.pid == 0 && (p.header.adaptation == 1 || p.header.adaptation == 3)
    requires PatInWidth(ph) && reserved < 8 && mapPid < 0x2000
    requires p.payload
          == PointerBytes(p, pointer) + EncodePat(ph) + (Be16(number) + Be16(reserved * 0x2000 + mapPid)) + tail
    ensures Reach(st, w) <= 188 && Fills(st, w)
    ensures Step(st, w, base)
         == Outcome(st.(pat := ph.(reserved0 := 0), pmtId := mapPid, patValid := true), [])
  {
    hide PieceBytes, EncodePat, DecodePat, DecodeTs, TsInWidth, PatInWidth, Low, SkippedTo, Holds;
    var head, ids := PointerBytes(p, pointer), Be16(number) + Be16(reserved * 0x2000 + mapPid);
    var q := 4 + |p.field| + |head|;
    PieceRead(p, w);
    PieceWindow(p, w);
    HoldsParts(w, 4 + |p.field|, head + EncodePat(ph) + ids, tail);
    HoldsParts(w, 4 + |p.field|, head + EncodePat(ph), ids);
    HoldsParts(w, 4 + |p.field|, head, EncodePat(ph));
    HeldAssociation(w, q, ph);
    HeldPid(w, q + 8, number, reserved, mapPid);
  }

  lemma HeldAssociation(w: seq<byte>, q: nat, ph: PatHeader)
    requires PatInWidth(ph) && Holds(w, q, EncodePat(ph))
    ensures DecodePat(w, q) == ph.(reserved0 := 0)
  {
    hide EncodePat, DecodePat;
    PatHeaderRoundTrip(ph, w, q);
  }

  lemma HeldPid(w: seq<byte>, q: nat, number: u16, reserved: nat, mapPid: u16)
    requires reserved < 8 && mapPid < 0x2000
    requires Holds(w, q, Be16(number) + Be16(reserved * 0x2000 + mapPid))
    ensures Low(Word(w, q + 2), 0x2000) == mapPid
  {
    hide Be16, Low;
    var word := reserved * 0x2000 + mapPid;
    HoldsParts(w, q, Be16(number), Be16(word));
    HeldWord(w, q + 2, word);
    LowIs(word, mapPid, 0x2000, reserved);
  }

  lemma HeldWord(w: seq<byte>, q: nat, v: u16)
    requires Holds(w, q, Be16(v))
    ensures Word(w, q) == v
  {
    HoldsAt(w, q, Be16(v), 0);
    HoldsAt(w, q, Be16(v), 1);
  }

  // ---------- Program map ----------

  // An element of the list with its descriptors.
  datatype Element = Element(info: PmtInfo, descriptors: seq<byte>)

  function ElementBytes(es: seq<Element>): seq<byte> {
    if es == [] then [] else EncodeInfo(es[0].info) + es[0].descriptors + ElementBytes(es[1..])
  }

  function InfosOf(es: seq<Element>): (infos: seq<PmtInfo>)
    ensures |infos| == |es| && forall i | 0 <= i < |es| :: infos[i] == es[i].info
  {
    if es == [] then [] else [es[0].info] + InfosOf(es[1..])
  }

  predicate Described(es: seq<Element>) {
    forall e | e in es :: InfoInWidth(e.info) && |e.descriptors| == e.info.infoLength
  }

  // One element, and where the next starts.
  lemma ElementHeld(e: Element, more: seq<byte>, w: seq<byte>, p: nat)
    requires InfoInWidth(e.info) && |e.descriptors| == e.info.infoLength
    requires Holds(w, p, EncodeInfo(e.info) + e.descriptors + more)
    ensures DecodeInfo(w, p) == e.info && Holds(w, p + InfoSize(e.info), more)
  {
    hide EncodeInfo, DecodeInfo, InfoInWidth, Holds;
    HoldsParts(w, p, EncodeInfo(e.info) + e.descriptors, more);
    HoldsParts(w, p, EncodeInfo(e.info), e.descriptors);
    HeldInfo(w, p, e.info);
  }

  lemma DescribedTail(es: seq<Element>)
    requires es != [] && Described(es)
    ensures InfoInWidth(es[0].info) && |es[0].descriptors| == es[0].info.infoLength && Described(es[1..])
  {
    hide InfoInWidth;
    assert es[0] in es && forall x | x in es[1..] :: x in es;
  }

  /** The element list is read whole, past every descriptor, and ends where it ends. */
  lemma {:induction false} ElementsRead(es: seq<Element>, w: seq<byte>, p: nat)
    requires Described(es) && Holds(w, p, ElementBytes(es))
    ensures DecodeInfos(w, p, |ElementBytes(es)|) == InfosOf(es)
    ensures InfosEnd(w, p, |ElementBytes(es)|) == p + |ElementBytes(es)|
    decreases |es|
  {
    hide EncodeInfo, DecodeInfo, InfoInWidth, Holds, Described;
    if es != [] {
      DescribedTail(es);
      ElementHeld(es[0], ElementBytes(es[1..]), w, p);
      ElementsRead(es[1..], w, p + InfoSize(es[0].info));
    }
  }

  lemma HeldInfo(w: seq<byte>, p: nat, e: PmtInfo)
    requires InfoInWidth(e) && Holds(w, p, EncodeInfo(e))
    ensures DecodeInfo(w, p) == e
  {
    hide EncodeInfo, DecodeInfo;
    InfoRoundTrip(e, w, p);
  }

  /** A program map with descriptors whose length field is right is read whole, up to its checksum. */
  lemma MapRead(h: PmtHeader, about: seq<byte>, es: seq<Element>, already: seq<PmtInfo>, w: seq<byte>, p: nat)
    requires PmtInWidth(h) && |about| == h.programInfoLength && Described(es)
    requires h.sectionLength == 9 + |about| + |ElementBytes(es)| + 4
    requires Holds(w, p, EncodePmtFixed(h) + about + ElementBytes(es))
    ensures DecodePmt(already, w, p) == h.(infos := already + InfosOf(es))
    ensures PmtEnd(w, p) == p + 12 + |about| + |ElementBytes(es)|
  {
    hide EncodePmtFixed, DecodePmtFixed, ElementBytes, DecodeInfos, InfosEnd, Holds, PmtInWidth;
    HoldsParts(w, p, EncodePmtFixed(h) + about, ElementBytes(es));
    HoldsParts(w, p, EncodePmtFixed(h), about);
    HeldFixed(w, p, h);
    ElementsRead(es, w, p + 12 + |about|);
  }

  lemma HeldFixed(w: seq<byte>, p: nat, h: PmtHeader)
    requires PmtInWidth(h) && Holds(w, p, EncodePmtFixed(h))
    ensures DecodePmtFixed(w, p) == h.(infos := [])
  {
    hide EncodePmtFixed, DecodePmtFixed;
    PmtFixedRoundTrip(h, w, p);
  }

  // ---------- What a list makes known ----------

  predicate Listed(infos: seq<PmtInfo>, pid: u16) { exists i :: 0 <= i < |infos| && infos[i].pid == pid }

  // Element i is the last of its PID.
  predicate LastOfPid(infos: seq<PmtInfo>, i: nat)
    requires i < |infos|
  {
    forall j | i < j < |infos| :: infos[j].pid != infos[i].pid
  }

  /** Every listed PID gets an object of the type its last element gives it, and no other PID changes. */
  lemma {:induction false} ObjectsAdded(frames: map<u16, Es>, infos: seq<PmtInfo>)
    ensures forall pid: u16 :: pid in AddFrames(frames, infos) <==> pid in frames || Listed(infos, pid)
    ensures forall pid: u16 | pid in frames && !Listed(infos, pid) :: AddFrames(frames, infos)[pid] == frames[pid]
    ensures forall i | 0 <= i < |infos| && LastOfPid(infos, i) ::
              infos[i].pid in AddFrames(frames, infos)
              && AddFrames(frames, infos)[infos[i].pid]
                 == Es(infos[i].streamType, [], 0, 0, 0, 0, 0, 0, 0, false, false)
    decreases |infos|
  {
    if infos != [] {
      var e, more := infos[0], infos[1..];
      var frames' := frames[e.pid := FreshEs(e.streamType)];
      ObjectsAdded(frames', more);
      ListedFirst(infos);
      var all := AddFrames(frames, infos);
      forall i | 0 <= i < |infos| && LastOfPid(infos, i)
        ensures infos[i].pid in all
                && all[infos[i].pid] == Es(infos[i].streamType, [], 0, 0, 0, 0, 0, 0, 0, false, false)
      {
        if i == 0 {
          assert !Listed(more, e.pid);
        } else {
          LastInTail(infos, i);
        }
      }
    }
  }

  predicate LastOfType(infos: seq<PmtInfo>, i: nat)
    requires i < |infos|
  {
    forall j | i < j < |infos| :: infos[j].streamType != infos[i].streamType
  }

  /** Every listed type gets the PID of its last element. */
  lemma {:induction false} PidsAdded(pids: map<byte, u16>, infos: seq<PmtInfo>)
    ensures forall t | t in pids :: t in AddPids(pids, infos)
    ensures forall t | t in pids && (forall e | e in infos :: e.streamType != t) :: AddPids(pids, infos)[t] == pids[t]
    ensures forall t | t in AddPids(pids, infos) :: t in pids || exists e :: e in infos && e.streamType == t
    ensures forall i | 0 <= i < |infos| && LastOfType(infos, i) ::
              infos[i].streamType in AddPids(pids, infos) && AddPids(pids, infos)[infos[i].streamType] == infos[i].pid
    decreases |infos|
  {
    if infos != [] {
      var e, more := infos[0], infos[1..];
      var all := AddPids(pids, infos);
      var pids' := pids[e.streamType := e.pid];
      PidsAdded(pids', more);
      assert all == AddPids(pids', more);
      assert infos == [e] + more;
      forall i | 0 <= i < |infos| && LastOfType(infos, i)
        ensures infos[i].streamType in all && all[infos[i].streamType] == infos[i].pid
      {
        if i == 0 {
          FirstTypeLast(infos);
        } else {
          LastTypeInTail(infos, i);
        }
      }
    }
  }

  lemma FirstTypeLast(infos: seq<PmtInfo>)
    requires infos != [] && LastOfType(infos, 0)
    ensures forall e | e in infos[1..] :: e.streamType != infos[0].streamType
  {
    forall e | e in infos[1..]
      ensures e.streamType != infos[0].streamType
    {
      var j :| 0 <= j < |infos[1..]| && infos[1..][j] == e;
      assert infos[j + 1] == e;
    }
  }

  lemma LastTypeInTail(infos: seq<PmtInfo>, i: nat)
    requires 0 < i < |infos| && LastOfType(infos, i)
    ensures infos[1..][i - 1] == infos[i] && LastOfType(infos[1..], i - 1)
  {
    forall j | i - 1 < j < |infos[1..]|
      ensures infos[1..][j].streamType != infos[i].streamType
    {
      assert infos[1..][j] == infos[j + 1];
    }
  }

  lemma ListedFirst(infos: seq<PmtInfo>)
    requires infos != []
    ensures forall pid: u16 :: Listed(infos, pid) <==> infos[0].pid == pid || Listed(infos[1..], pid)
  {
    forall pid: u16
      ensures Listed(infos, pid) <==> infos[0].pid == pid || Listed(infos[1..], pid)
    {
      if Listed(infos[1..], pid) {
        var i :| 0 <= i < |infos[1..]| && infos[1..][i].pid == pid;
        assert infos[i + 1].pid == pid;
      }
      if Listed(infos, pid) && infos[0].pid != pid {
        var i :| 0 <= i < |infos| && infos[i].pid == pid;
        assert infos[1..][i - 1].pid == pid;
      }
    }
  }

  lemma LastInTail(infos: seq<PmtInfo>, i: nat)
    requires 0 < i < |infos| && LastOfPid(infos, i)
    ensures infos[1..][i - 1] == infos[i] && LastOfPid(infos[1..], i - 1)
  {
    forall j | i - 1 < j < |infos[1..]|
      ensures infos[1..][j].pid != infos[i].pid
    {
      assert infos[1..][j] == infos[j + 1];
    }
  }

  /**
   The first map learned makes exactly its elements known, in order and with their descriptors passed
   over, and its clock PID; nothing is reported.
   */
  lemma MapLearned(st: State, p: Piece, pointer: byte, h: PmtHeader, about: seq<byte>, es: seq<Element>,
                   tail: seq<byte>, w: seq<byte>, base: nat)
    requires st.frames == map[] && st.pmtId != 0 && p.header.pid == st.pmtId && p.header.unitStart == 1
    requires WellFormed(p) && (p.header.adaptation == 1 || p.header.adaptation == 3) && PieceBytes(p) <= w
    requires PmtInWidth(h) && |about| == h.programInfoLength && Described(es)
    requires h.sectionLength == 9 + |about| + |ElementBytes(es)| + 4
    requires p.payload == [pointer] + (EncodePmtFixed(h) + about + ElementBytes(es)) + tail
    requires h.pcrPid != st.pmtId && !Listed(st.pmt.infos + InfosOf(es), st.pmtId)
    ensures Reach(st, w) <= 188 && Fills(st, w)
    ensures var outcome, infos := Step(st, w, base), st.pmt.infos + InfosOf(es);
            outcome.events == [] && outcome.state.pmt == h.(infos := infos) && outcome.state.pmtValid
            && outcome.state.pcrId == h.pcrPid && outcome.state.pmtId == st.pmtId
            && (forall pid: u16 :: pid in outcome.state.frames <==> Listed(infos, pid))
            && forall i | 0 <= i < |infos| && LastOfPid(infos, i) ::
                 infos[i].pid in outcome.state.frames
                 && outcome.state.frames[infos[i].pid]
                    == Es(infos[i].streamType, [], 0, 0, 0, 0, 0, 0, 0, false, false)
    ensures var outcome, infos := Step(st, w, base), st.pmt.infos + InfosOf(es);
            forall i | 0 <= i < |infos| && LastOfType(infos, i) ::
              infos[i].streamType in outcome.state.streamPids
              && outcome.state.streamPids[infos[i].streamType] == infos[i].pid
  {
    hide PieceBytes, EncodePmtFixed, DecodePmt, PmtEnd, DecodeTs, TsInWidth, PmtInWidth, SkippedTo, Holds, ElementBytes,
      Described, Listed, LastOfPid, LastOfType, AddFrames, AddPids, InfosOf;
    var section := EncodePmtFixed(h) + about + ElementBytes(es);
    var q := 4 + |p.field|;
    PieceRead(p, w);
    PieceWindow(p, w);
    HoldsParts(w, q, [pointer] + section, tail);
    HoldsParts(w, q, [pointer], section);
    MapRead(h, about, es, st.pmt.infos, w, q + 1);
    ObjectsAdded(map[], st.pmt.infos + InfosOf(es));
    PidsAdded(st.streamPids, st.pmt.infos + InfosOf(es));
  }
}
