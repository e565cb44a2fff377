/** The list of protocol names in wire form (next_protos_parse, 3rd/openssl/apps/apps.c). */
module NextProtos {
  import opened Bytes
  import opened Options

  const COMMA: byte := 44
  const MAX_NAME := 255
  const MAX_INPUT := 65535

  // The position of the first comma, or the length.
  function FirstComma(s: seq<byte>): (n: nat)
    ensures n <= |s| && COMMA !in s[..n] && (n < |s| ==> s[n] == COMMA)
  {
    if s == [] || s[0] == COMMA then 0 else
      var n := FirstComma(s[1..]);
      assert s[..1 + n] == [s[0]] + s[1..][..n];
      1 + n
  }

  // The comma-separated fields, empty ones included.
  function Fields(s: seq<byte>): (fields: seq<seq<byte>>)
    ensures fields != []
    decreases |s|
  {
    var n := FirstComma(s);
    if n == |s| then [s] else [s[..n]] + Fields(s[n + 1..])
  }

  predicate Legal(fields: seq<seq<byte>>) {
    forall f | f in fields :: |f| <= MAX_NAME
  }

  predicate HasName(fields: seq<seq<byte>>) {
    exists f :: f in fields && f != []
  }

  // A name behind its length.
  function Wire(name: seq<byte>): (r: seq<byte>)
    requires |name| <= MAX_NAME
  {
    if name == [] then [] else [|name|] + name
  }

  // A ProtocolNameList (section 3.1 of RFC 7301): each non-empty name behind its length.
  function NameList(fields: seq<seq<byte>>): (r: seq<byte>)
    requires Legal(fields)
    ensures r == [] <==> forall f | f in fields :: f == []
  {
    if fields == [] then [] else
      LegalCons(fields);
      var first, others := Wire(fields[0]), NameList(fields[1..]);
      assert |first + others| == |first| + |others|;
      assert fields[0] in fields;
      first + others
  }

  lemma LegalCons(fields: seq<seq<byte>>)
    requires fields != []
    ensures Legal(fields) <==> |fields[0]| <= MAX_NAME && Legal(fields[1..])
    ensures forall f :: f in fields <==> f == fields[0] || f in fields[1..]
  {
    assert fields == [fields[0]] + fields[1..];
  }

  lemma {:induction false} FirstCommaIs(t: seq<byte>, k: nat)
    requires k <= |t| && COMMA !in t[..k] && (k == |t| || t[k] == COMMA)
    ensures FirstComma(t) == k
    decreases k
  {
    if k > 0 {
      assert t[0] in t[..k];
      assert t[1..][..k - 1] == t[..k][1..];
      FirstCommaIs(t[1..], k - 1);
    }
  }

  lemma FieldsAt(s: seq<byte>, start: nat, i: nat)
    requires start <= i <= |s| && COMMA !in s[start..i] && (i == |s| || s[i] == COMMA)
    ensures var rest := Fields(s[start..]);
            rest[0] == s[start..i] && rest[1..] == if i == |s| then [] else Fields(s[i + 1..])
  {
    var t := s[start..];
    assert t[..i - start] == s[start..i];
    FirstCommaIs(t, i - start);
    if i < |s| {
      assert t[i - start + 1..] == s[i + 1..];
    } else {
      assert t[..i - start] == t;
    }
  }

  // The fields from start on; past the end there are none.
  ghost function FieldsFrom(s: seq<byte>, start: nat): seq<seq<byte>>
    requires start <= |s| + 1
  {
    if start == |s| + 1 then [] else Fields(s[start..])
  }

  // What has been built when the loop is about to read a field at start.
  ghost predicate Built(s: seq<byte>, start: nat, done: seq<byte>)
    requires start <= |s| + 1
  {
    Resumes(Fields(s), FieldsFrom(s, start), done)
  }

  ghost predicate Resumes(all: seq<seq<byte>>, rest: seq<seq<byte>>, done: seq<byte>) {
    (Legal(all) <==> Legal(rest))
    && (Legal(all) ==> done + NameList(rest) == NameList(all))
  }

  lemma ResumesCons(all: seq<seq<byte>>, rest: seq<seq<byte>>, done: seq<byte>)
    requires rest != [] && Resumes(all, rest, done)
    ensures |rest[0]| > MAX_NAME ==> !Legal(all)
    ensures |rest[0]| <= MAX_NAME ==> Resumes(all, rest[1..], done + Wire(rest[0]))
  {
    hide Wire, Legal;
    LegalCons(rest);
    if Legal(all) {
      assert done + (Wire(rest[0]) + NameList(rest[1..])) == done + Wire(rest[0]) + NameList(rest[1..]);
    }
  }

  lemma Extends(s: seq<byte>, start: nat, i: nat, done: seq<byte>)
    requires start <= i <= |s| && COMMA !in s[start..i] && (i == |s| || s[i] == COMMA)
    requires Built(s, start, done)
    ensures i - start > MAX_NAME ==> !Legal(Fields(s))
    ensures i - start <= MAX_NAME ==> Built(s, i + 1, done + Wire(s[start..i]))
  {
    hide NameList, Fields, Legal, Wire, Resumes;
    FieldsAt(s, start, i);
    ResumesCons(Fields(s), Fields(s[start..]), done);
  }

  lemma BuiltAtStart(s: seq<byte>)
    ensures Built(s, 0, [])
  {
    hide Fields, Legal;
    assert s[0..] == s;
    if Legal(Fields(s)) {
      assert [] + NameList(Fields(s)) == NameList(Fields(s));
    }
  }

  lemma BuiltAtEnd(s: seq<byte>, done: seq<byte>)
    requires Built(s, |s| + 1, done)
    ensures Legal(Fields(s)) && done == NameList(Fields(s))
    ensures |done| <= 1 <==> !HasName(Fields(s))
  {
    hide Fields;
    assert Legal([]) && NameList([]) == [];
    assert done + [] == done;
    NoLoneByte(Fields(s));
  }

  lemma {:induction false} NoLoneByte(fields: seq<seq<byte>>)
    requires Legal(fields)
    ensures |NameList(fields)| != 1
  {
    if fields != [] {
      LegalCons(fields);
      NoLoneByte(fields[1..]);
    }
  }

  // A peer reads a list back name by name; a length that runs past the end is malformed.
  function Names(list: seq<byte>): (r: Option<seq<seq<byte>>>)
    decreases |list|
  {
    if list == [] then Some([]) else
      var n: int := list[0];
      var end := 1 + n;
      if end > |list| then None else
        match Names(list[end..])
        case None => None
        case Some(others) => Some([list[1..end]] + others)
  }

  function NonEmpty(fields: seq<seq<byte>>): (r: seq<seq<byte>>) {
    if fields == [] then [] else (if fields[0] == [] then [] else [fields[0]]) + NonEmpty(fields[1..])
  }

  // What a peer reads back is the non-empty fields, in order.
  lemma {:induction false} NamesRoundTrip(fields: seq<seq<byte>>)
    requires Legal(fields)
    ensures Names(NameList(fields)) == Some(NonEmpty(fields))
  {
    if fields != [] {
      LegalCons(fields);
      NamesRoundTrip(fields[1..]);
      var first, others := fields[0], NameList(fields[1..]);
      if first == [] {
        assert [] + others == others;
        assert [] + NonEmpty(fields[1..]) == NonEmpty(fields[1..]);
      } else {
        var list := [|first|] + first + others;
        assert list == Wire(first) + others;
        assert list[1 + |first|..] == others && list[1..1 + |first|] == first;
      }
    }
  }

  function Joined(fields: seq<seq<byte>>): (r: seq<byte>)
    requires fields != []
  {
    if |fields| == 1 then fields[0] else fields[0] + [44] + Joined(fields[1..])
  }

  // The fields are the only comma-free pieces that joined by commas give the input.
  lemma {:induction false} FieldsJoined(s: seq<byte>)
    ensures Joined(Fields(s)) == s && forall f | f in Fields(s) :: 44 !in f
    decreases |s|
  {
    hide FirstComma;
    var n := FirstComma(s);
    if n < |s| {
      var name, more := s[..n], Fields(s[n + 1..]);
      FieldsJoined(s[n + 1..]);
      assert Fields(s) == [name] + more;
      assert ([name] + more)[0] == name && ([name] + more)[1..] == more;
      assert s == name + [COMMA] + s[n + 1..];
    } else {
      assert s[..n] == s;
    }
  }

  lemma {:induction false} FieldsUnique(fields: seq<seq<byte>>)
    requires fields != [] && forall f | f in fields :: 44 !in f
    ensures Fields(Joined(fields)) == fields
  {
    hide FirstComma, Fields;
    var name := fields[0];
    assert name in fields;
    if |fields| > 1 {
      assert forall f | f in fields[1..] :: f in fields;
      FieldsUnique(fields[1..]);
      FieldsCons(name, Joined(fields[1..]));
      assert fields == [name] + fields[1..];
    } else {
      assert name[..|name|] == name && name[0..] == name;
      FieldsAt(name, 0, |name|);
      assert fields == [name];
    }
  }

  lemma FieldsCons(name: seq<byte>, more: seq<byte>)
    requires COMMA !in name
    ensures Fields(name + [COMMA] + more) == [name] + Fields(more)
  {
    hide FirstComma, Fields;
    var s, n := name + [COMMA] + more, |name|;
    assert s[0..] == s && s[0..n] == name && s[n] == COMMA && s[n + 1..] == more;
    FieldsAt(s, 0, n);
    var fields := Fields(s);
    assert fields == [fields[0]] + fields[1..];
  }

  // Two names: "h2,http/1.1" becomes a list of 2 and 8 bytes behind their lengths.
  lemma KnownNames()
    ensures var h2, http := [104, 50], [104, 116, 116, 112, 47, 49, 46, 49];
            Fields(h2 + [44] + http) == [h2, http]
            && Legal([h2, http]) && HasName([h2, http]) && NameList([h2, http]) == [2] + h2 + [8] + http
  {
    hide Fields;
    var h2: seq<byte>, http: seq<byte> := [104, 50], [104, 116, 116, 112, 47, 49, 46, 49];
    var both := [h2, http];
    assert both[1..] == [http] && [http][1..] == [];
    FieldsUnique(both);
    assert both[0] in both && Legal([http]) && NameList([http]) == [8] + http;
  }

  // The bytes of the field being read lie one place behind where its length will go.
  ghost predicate Copied(out: seq<byte>, at: nat, input: seq<byte>, start: nat, i: nat)
    requires start <= i <= |input|
  {
    at + 1 + (i - start) <= |out| && out[at + 1..at + 1 + (i - start)] == input[start..i]
  }

  lemma NothingCopied(out: seq<byte>, at: nat, input: seq<byte>, start: nat)
    requires start <= |input| && at < |out|
    ensures Copied(out, at, input, start, start)
  {
  }

  method StoreByte(out: array<byte>, input: seq<byte>, start: nat, i: nat, skipped: nat)
    requires skipped <= start <= i < |input| < out.Length && COMMA !in input[start..i] && input[i] != COMMA
    requires Copied(out[..], start - skipped, input, start, i)
    modifies out
    ensures out[..start - skipped] == old(out[..start - skipped])
    ensures Copied(out[..], start - skipped, input, start, i + 1) && COMMA !in input[start..i + 1]
  {
    ghost var was, at := out[..], start - skipped + 1;
    out[i + 1 - skipped] := input[i];
    assert input[start..i + 1] == input[start..i] + [input[i]];
    assert out[..][at..i + 2 - skipped] == was[at..i + 1 - skipped] + [input[i]];
  }

  lemma NoWire(done: seq<byte>, name: seq<byte>)
    requires name == []
    ensures done + Wire(name) == done
  {
  }

  lemma Spliced(was: seq<byte>, at: nat, end: nat, n: byte)
    requires at < end <= |was|
    ensures was[at := n][..end] == was[..at] + ([n] + was[at + 1..end])
  {
  }

  method StoreLength(out: array<byte>, ghost input: seq<byte>, start: nat, i: nat, skipped: nat)
    requires skipped <= start < i <= |input| && i - start <= MAX_NAME
    requires Copied(out[..], start - skipped, input, start, i)
    modifies out
    ensures out[..i + 1 - skipped] == old(out[..start - skipped]) + Wire(input[start..i])
  {
    ghost var was, at, end := out[..], start - skipped, i + 1 - skipped;
    ghost var name := was[at + 1..end];
    assert name == input[start..i] && Wire(name) == [i - start] + name;
    hide Copied, Wire;
    out[start - skipped] := i - start;
    assert out[..] == was[at := i - start];
    Spliced(was, at, end, i - start);
  }

  /**
   For every input: the result is the wire form of its non-empty fields, with exactly that
   length; there is none if the input is empty or too long, a field is longer than 255, or
   all are empty. Every store is within the buffer.
   */
  method NextProtosParse(input: seq<byte>) returns (result: Option<seq<byte>>)
    ensures result.Some? <==>
              0 < |input| < 65535 && (forall f | f in Fields(input) :: |f| <= 255) && HasName(Fields(input))
    ensures result.Some? ==> result.value == NameList(Fields(input))
  {
    hide NameList, Fields, Built, Copied, HasName, Wire;
    hide FirstComma;
    var len := |input|;
    if len == 0 || len >= MAX_INPUT {
      return None;
    }
    var out := new byte[len + 1];
    var i, start, skipped := 0, 0, 0;
    BuiltAtStart(input);
    assert out[..0] == [];
    NothingCopied(out[..], 0, input, 0);
    while i <= len
      invariant 0 <= skipped <= start <= i <= len + 1
      invariant i == len + 1 ==> start == i
      invariant i <= len ==> COMMA !in input[start..i] && Copied(out[..], start - skipped, input, start, i)
      invariant Built(input, start, out[..start - skipped])
      decreases len + 1 - i
    {
      if i == len || input[i] == COMMA {
        Extends(input, start, i, out[..start - skipped]);
        if i == start {
          NoWire(out[..start - skipped], input[start..i]);
          start := start + 1;
          skipped := skipped + 1;
        } else {
          if i - start > MAX_NAME {
            return None;
          }
          StoreLength(out, input, start, i, skipped);
          start := i + 1;
        }
      } else {
        StoreByte(out, input, start, i, skipped);
      }
      i := i + 1;
      if start == i <= len {
        NothingCopied(out[..], start - skipped, input, start);
      }
    }
    BuiltAtEnd(input, out[..len + 1 - skipped]);
    if len <= skipped {
      return None;
    }
    result := Some(out[..len + 1 - skipped]);
  }
}
