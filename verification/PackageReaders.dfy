/** The readers of a downloaded Debian package (`scripts/rc_smoke/prepare.py`): the `ar`
    container and the end of the tar archive inside it, byte by byte, against the grammars of
    both formats (deb(5); the 'ustar Interchange Format' of POSIX.1-2017 pax). */
module PackageReaders {
  import opened Text

  type Byte = x: int | 0 <= x < 256

  const MAX_PACKAGE := 32 * 1024 * 1024

  predicate IsAscii(s: seq<Byte>) { forall i | 0 <= i < |s| :: s[i] < 128 }

  function Decoded(s: seq<Byte>): (t: string)
    requires IsAscii(s)
    ensures |t| == |s| && forall i | 0 <= i < |s| :: t[i] as int == s[i]
  {
    if s == [] then "" else [s[0] as char] + Decoded(s[1..])
  }

  function Encoded(t: string): (s: seq<Byte>)
    requires forall i | 0 <= i < |t| :: t[i] as int < 128
    ensures |s| == |t| && forall i | 0 <= i < |t| :: s[i] == t[i] as int
  {
    if t == "" then [] else [t[0] as int] + Encoded(t[1..])
  }

  /** ASCII white space to Python's `str.strip`. */
  predicate IsWhite(c: char) {
    '\t' <= c <= '\r' || 28 <= c as int <= 32
  }

  function TrimEnd(s: string): (t: string) {
    if s == "" || !IsWhite(s[|s| - 1]) then s else TrimEnd(s[..|s| - 1])
  }

  function TrimStart(s: string): (t: string) {
    if s == "" || !IsWhite(s[0]) then s else TrimStart(s[1..])
  }

  function TrimSlashes(s: string): (t: string) {
    if s == "" || s[|s| - 1] != '/' then s else TrimSlashes(s[..|s| - 1])
  }

  // ---------------------------------------------------------------- ar

  /** A member: its 16 name bytes, 32 bytes nobody looks at, 10 size bytes, the payload and,
      after an odd payload, one byte of padding. */
  datatype Member = Member(name: seq<Byte>, other: seq<Byte>, size: seq<Byte>, payload: seq<Byte>, padding: seq<Byte>)

  const MAGIC := Encoded("!<arch>\n")
  const END: seq<Byte> := [96, 10]

  function PrintMember(m: Member): (s: seq<Byte>) {
    m.name + m.other + m.size + END + m.payload + m.padding
  }

  function PrintMembers(ms: seq<Member>): (s: seq<Byte>) {
    if ms == [] then [] else PrintMember(ms[0]) + PrintMembers(ms[1..])
  }

  function Name(field: seq<Byte>): (name: string) {
    if IsAscii(field) then TrimSlashes(TrimEnd(Decoded(field))) else ""
  }

  /** The decimal number in a size field, if that is what it holds. */
  function Size(field: seq<Byte>): (n: Option<nat>) {
    if !IsAscii(field) then None
    else
      var digits := TrimEnd(TrimStart(Decoded(field)));
      if digits != "" && AllDigits(digits) then Some(NumeralValue(digits)) else None
  }

  predicate WellFormed(m: Member) {
    && |m.name| == 16 && |m.other| == 32 && |m.size| == 10 && IsAscii(m.name)
    && |m.payload| <= MAX_PACKAGE && Size(m.size) == Some(|m.payload|)
    && |m.padding| == |m.payload| % 2
  }

  /** The member at the start of `s`. */
  function ReadMember(s: seq<Byte>): (m: Option<Member>)
    ensures m.Some? ==> WellFormed(m.value) && 60 + |m.value.payload| + |m.value.padding| <= |s|
  {
    if |s| < 60 || s[58..60] != END || !IsAscii(s[..16]) then None
    else
      var size := Size(s[48..58]);
      if size.None? || size.value > MAX_PACKAGE || 60 + size.value + size.value % 2 > |s| then None
      else
        var end := 60 + size.value;
        Some(Member(s[..16], s[16..48], s[48..58], s[60..end], s[end..end + size.value % 2]))
  }

  function Length(m: Member): (n: nat) { 60 + |m.payload| + |m.padding| }

  function ReadMembers(s: seq<Byte>): (ms: Option<seq<Member>>)
    decreases |s|
  {
    if s == [] then Some([])
    else
      var m := ReadMember(s);
      if m.None? then None
      else
        var rest := ReadMembers(s[Length(m.value)..]);
        if rest.None? then None else Some([m.value] + rest.value)
  }

  lemma ReadPrinted(m: Member, rest: seq<Byte>)
    requires WellFormed(m)
    ensures ReadMember(PrintMember(m) + rest) == Some(m) && |PrintMember(m)| == Length(m)
  {
    hide Size;
    var s := PrintMember(m) + rest;
    assert s[..16] == m.name && s[16..48] == m.other && s[48..58] == m.size && s[58..60] == END;
    var end := 60 + |m.payload|;
    assert s[60..end] == m.payload && s[end..end + |m.padding|] == m.padding;
  }

  lemma PrintRead(s: seq<Byte>)
    requires ReadMember(s).Some?
    ensures s == PrintMember(ReadMember(s).value) + s[Length(ReadMember(s).value)..]
  {
    hide Size;
  }

  /** A text reads as these members exactly when it is their printed form. */
  lemma {:induction false} ReadsExactlyPrinted(s: seq<Byte>, ms: seq<Member>)
    ensures ReadMembers(s) == Some(ms) <==> s == PrintMembers(ms) && forall m | m in ms :: WellFormed(m)
    decreases |s| + |ms|
  {
    hide ReadMember, PrintMember, WellFormed;
    if s == [] {
      if ms != [] && WellFormed(ms[0]) { ReadPrinted(ms[0], []); }
    } else if ms != [] {
      if ReadMember(s) == Some(ms[0]) {
        PrintRead(s);
        var n := Length(ms[0]);
        ReadsExactlyPrinted(s[n..], ms[1..]);
        ReadPrinted(ms[0], s[n..]);
        SameRest(PrintMember(ms[0]), s[n..], PrintMembers(ms[1..]));
        assert ms == [ms[0]] + ms[1..];
        var rest := ReadMembers(s[n..]);
        if rest.Some? {
          assert ([ms[0]] + rest.value)[1..] == rest.value;
        }
      } else if WellFormed(ms[0]) {
        ReadPrinted(ms[0], PrintMembers(ms[1..]));
      }
    }
  }

  lemma SameRest(a: seq<Byte>, b: seq<Byte>, c: seq<Byte>)
    ensures a + b == a + c <==> b == c
  {
    assert (a + b)[|a|..] == b && (a + c)[|a|..] == c;
  }

  const DATA := {"data.tar.xz", "data.tar.gz", "data.tar.bz2", "data.tar"}
  const CONTROL := {"control.tar.xz", "control.tar.gz", "control.tar.bz2", "control.tar"}
  const FORMAT := "debian-binary"

  /** What the members may be, one by one. */
  predicate Allowed(m: Member) {
    var name := Name(m.name);
    if name == FORMAT then m.payload == Encoded("2.0\n") else name in DATA || name in CONTROL
  }

  ghost predicate Legal(ms: seq<Member>) {
    && (forall i | 0 <= i < |ms| :: WellFormed(ms[i]) && Allowed(ms[i]))
    && |ms| <= 8
    && (forall i, j | 0 <= i < j < |ms| :: Name(ms[i].name) != Name(ms[j].name))
    && (forall i, j | 0 <= i < j < |ms| :: !(Name(ms[i].name) in DATA && Name(ms[j].name) in DATA))
  }

  /** A package has a format member and a data member. */
  ghost predicate Complete(ms: seq<Member>, k: nat) {
    && Legal(ms)
    && (exists i :: 0 <= i < |ms| && Name(ms[i].name) == FORMAT)
    && k < |ms| && Name(ms[k].name) in DATA
  }

  /** The package is exactly the magic and printed legal members, `k` being its data member. */
  ghost predicate IsPackage(deb: seq<Byte>, ms: seq<Member>, k: nat, data: (string, seq<Byte>)) {
    && deb == MAGIC + PrintMembers(ms)
    && Complete(ms, k)
    && data == (Name(ms[k].name), ms[k].payload)
  }

  /** What the loop has read so far, in its own variables. */
  ghost predicate Gathered(done: seq<Member>, names: set<string>, data: Option<(string, seq<Byte>)>, k: nat) {
    && Legal(done)
    && (forall name :: name in names <==> exists i :: 0 <= i < |done| && Name(done[i].name) == name)
    && |names| == |done|
    && (data.None? ==> forall i | 0 <= i < |done| :: Name(done[i].name) !in DATA)
    && (data.Some? ==> k < |done| && Name(done[k].name) in DATA && data.value == (Name(done[k].name), done[k].payload))
  }

  /** The text reads as what is done and then whatever the rest reads as. */
  ghost predicate ReadsOn(s: seq<Byte>, done: seq<Member>, rest: seq<Byte>) {
    ReadMembers(s) == match ReadMembers(rest) { case None => None case Some(more) => Some(done + more) }
  }

  lemma ReadsOneMore(s: seq<Byte>, done: seq<Member>, rest: seq<Byte>)
    requires ReadsOn(s, done, rest) && rest != []
    ensures ReadMember(rest).None? ==> ReadMembers(s).None?
    ensures ReadMember(rest).Some? ==>
      var m := ReadMember(rest).value;
      && ReadsOn(s, done + [m], rest[Length(m)..])
      && (ReadMembers(s).Some? ==> done + [m] <= ReadMembers(s).value)
  {
    hide ReadMember;
    if ReadMember(rest).Some? {
      var m := ReadMember(rest).value;
      var more := ReadMembers(rest[Length(m)..]);
      if more.Some? {
        assert done + ([m] + more.value) == (done + [m]) + more.value;
      }
    }
  }

  /** Legal members that start with `done` allow its last one. */
  lemma PrefixIsLegal(ms: seq<Member>, done: seq<Member>)
    requires Legal(ms) && done <= ms
    ensures Legal(done)
  {
  }

  /** A member joins the legal ones exactly under the loop's own conditions. */
  lemma OneMoreLegal(done: seq<Member>, m: Member, names: set<string>, data: Option<(string, seq<Byte>)>, k: nat)
    requires Gathered(done, names, data, k) && WellFormed(m)
    ensures var name := Name(m.name);
      Legal(done + [m]) <==> name !in names && |names| < 8 && Allowed(m) && (name in DATA ==> data.None?)
  {
    hide WellFormed, Allowed, Name;
    var all := done + [m];
    var name := Name(m.name);
    if name !in names && |names| < 8 && Allowed(m) && (name in DATA ==> data.None?) {
      forall i | 0 <= i < |all| ensures WellFormed(all[i]) && Allowed(all[i]) {
        if i < |done| { assert all[i] == done[i]; }
      }
    }
    if Legal(all) {
      assert all[|done|] == m;
      assert forall i | 0 <= i < |done| :: all[i] == done[i];
    }
  }

  lemma GatherOne(done: seq<Member>, m: Member, names: set<string>, data: Option<(string, seq<Byte>)>, k: nat)
    requires Gathered(done, names, data, k) && Legal(done + [m])
    ensures var name := Name(m.name);
      if name in DATA then Gathered(done + [m], names + {name}, Some((name, m.payload)), |done|)
      else Gathered(done + [m], names + {name}, data, k)
  {
    hide WellFormed, Allowed, Name;
    var all := done + [m];
    assert all[|done|] == m;
    OneMoreLegal(done, m, names, data, k);
    assert forall i | 0 <= i < |done| :: all[i] == done[i];
    forall x ensures x in names + {Name(m.name)} <==> exists i :: 0 <= i < |all| && Name(all[i].name) == x {
      if x in names {
        var i :| 0 <= i < |done| && Name(done[i].name) == x;
        assert Name(all[i].name) == x;
      }
      if x == Name(m.name) { assert Name(all[|done|].name) == x; }
    }
  }

  lemma NoneGathered()
    ensures Gathered([], {}, None, 0)
  {
  }

  ghost predicate Accepted(deb: seq<Byte>, data: (string, seq<Byte>)) {
    exists ms: seq<Member>, k: nat :: IsPackage(deb, ms, k, data)
  }

  lemma PackageReads(deb: seq<Byte>, ms: seq<Member>, k: nat, data: (string, seq<Byte>))
    requires IsPackage(deb, ms, k, data)
    ensures MAGIC <= deb && ReadMembers(deb[8..]) == Some(ms) && Complete(ms, k)
  {
    hide ReadMembers, PrintMembers;
    ReadsExactlyPrinted(PrintMembers(ms), ms);
    assert deb[8..] == PrintMembers(ms);
  }

  lemma NotPackage(deb: seq<Byte>)
    requires !(MAGIC <= deb) || ReadMembers(deb[8..]).None? || forall k :: !Complete(ReadMembers(deb[8..]).value, k)
    ensures forall data :: !Accepted(deb, data)
  {
    hide Complete, ReadMembers, PrintMembers, IsPackage;
    forall data ensures !Accepted(deb, data) {
      if Accepted(deb, data) {
        var ms: seq<Member>, k: nat :| IsPackage(deb, ms, k, data);
        PackageReads(deb, ms, k, data);
      }
    }
  }

  lemma OneDataMember(ms: seq<Member>, i: nat, j: nat)
    requires Complete(ms, i) && Complete(ms, j)
    ensures i == j
  {
    hide WellFormed, Allowed;
  }

  /** A file is a package in one way only, so reading a printed package returns its data member. */
  lemma OneData(deb: seq<Byte>, d: (string, seq<Byte>), e: (string, seq<Byte>))
    requires Accepted(deb, d) && Accepted(deb, e)
    ensures d == e
  {
    hide ReadMembers, PrintMembers, WellFormed, Allowed;
    var ms: seq<Member>, k: nat :| IsPackage(deb, ms, k, d);
    var ns: seq<Member>, j: nat :| IsPackage(deb, ns, j, e);
    PackageReads(deb, ms, k, d);
    PackageReads(deb, ns, j, e);
    assert ms == ns;
    OneDataMember(ms, k, j);
  }

  /** A rest that does not go on with a legal member ends in refusal. */
  lemma Refuse(deb: seq<Byte>, done: seq<Member>, rest: seq<Byte>)
    requires MAGIC <= deb && ReadsOn(deb[8..], done, rest) && rest != []
    requires ReadMember(rest).None? || !Legal(done + [ReadMember(rest).value])
    ensures forall data :: !Accepted(deb, data)
  {
    hide ReadsOn, Legal, ReadMembers, ReadMember, Accepted;
    ReadsOneMore(deb[8..], done, rest);
    var all := ReadMembers(deb[8..]);
    if ReadMember(rest).Some? && all.Some? {
      forall k ensures !Complete(all.value, k) {
        if Complete(all.value, k) { PrefixIsLegal(all.value, done + [ReadMember(rest).value]); }
      }
    }
    NotPackage(deb);
  }

  /** At the end of the file, the package is what was gathered. */
  lemma Finish(deb: seq<Byte>, done: seq<Member>, names: set<string>, data: Option<(string, seq<Byte>)>, k: nat)
    requires MAGIC <= deb && ReadsOn(deb[8..], done, []) && Gathered(done, names, data, k)
    ensures if FORMAT in names && data.Some? then Accepted(deb, data.value) else forall d :: !Accepted(deb, d)
  {
    hide PrintMembers, WellFormed, Allowed, Name, Accepted;
    assert done + [] == done;
    assert ReadMembers(deb[8..]) == Some(done);
    hide ReadMembers;
    if FORMAT in names && data.Some? {
      ReadsExactlyPrinted(deb[8..], done);
      assert deb == MAGIC + deb[8..];
      AcceptedBy(deb, done, k, data.value);
    } else {
      forall j ensures !Complete(done, j) {
      }
      NotPackage(deb);
    }
  }

  lemma AcceptedBy(deb: seq<Byte>, ms: seq<Member>, k: nat, data: (string, seq<Byte>))
    requires IsPackage(deb, ms, k, data)
    ensures Accepted(deb, data)
  {
  }

  /** The member at an offset, in the terms of the whole file. */
  lemma MemberAt(deb: seq<Byte>, offset: nat)
    requires offset <= |deb|
    ensures ReadMember(deb[offset..]) ==
      if offset + 60 > |deb| || deb[offset + 58..offset + 60] != END || !IsAscii(deb[offset..offset + 16]) then None
      else
        var size := Size(deb[offset + 48..offset + 58]);
        if size.None? || size.value > MAX_PACKAGE || offset + 60 + size.value + size.value % 2 > |deb| then None
        else
          var end := offset + 60 + size.value;
          Some(Member(deb[offset..offset + 16], deb[offset + 16..offset + 48], deb[offset + 48..offset + 58],
            deb[offset + 60..end], deb[end..end + size.value % 2]))
  {
    hide Size;
    var s := deb[offset..];
    if offset + 60 <= |deb| {
      assert s[58..60] == deb[offset + 58..offset + 60] && s[..16] == deb[offset..offset + 16];
      assert s[48..58] == deb[offset + 48..offset + 58] && s[16..48] == deb[offset + 16..offset + 48];
      var size := Size(s[48..58]);
      if size.Some? && offset + 60 + size.value + size.value % 2 <= |deb| {
        var end := 60 + size.value;
        assert s[60..end] == deb[offset + 60..offset + end] && s[end..end + size.value % 2] == deb[offset + end..offset + end + size.value % 2];
      }
    }
  }

  /** What one more member means for the loop: it goes on exactly under its own conditions. */
  lemma OneRound(deb: seq<Byte>, offset: nat, done: seq<Member>, members: set<string>, data: Option<(string, seq<Byte>)>, k: nat)
    requires MAGIC <= deb && 8 <= offset < |deb|
    requires Gathered(done, members, data, k) && ReadsOn(deb[8..], done, deb[offset..])
    ensures var next := ReadMember(deb[offset..]);
      if next.None? then forall d :: !Accepted(deb, d)
      else
        var m := next.value;
        var name := Name(m.name);
        if name !in members && |members| < 8 && Allowed(m) && (name in DATA ==> data.None?) then
          && offset + Length(m) <= |deb| && ReadsOn(deb[8..], done + [m], deb[offset + Length(m)..])
          && (if name in DATA then Gathered(done + [m], members + {name}, Some((name, m.payload)), |done|)
              else Gathered(done + [m], members + {name}, data, k))
        else forall d :: !Accepted(deb, d)
  {
    hide ReadMember, Legal, Gathered, WellFormed, Allowed, Name, Accepted, ReadsOn;
    var rest := deb[offset..];
    ReadsOneMore(deb[8..], done, rest);
    var next := ReadMember(rest);
    if next.Some? {
      OneMoreLegal(done, next.value, members, data, k);
      RestOfRest(deb, offset, Length(next.value));
    }
    if next.None? || !Legal(done + [next.value]) {
      Refuse(deb, done, rest);
    } else {
      GatherOne(done, next.value, members, data, k);
    }
  }

  /** The data member is returned exactly when the file is a package: the magic, then printed
      legal members with distinct names up to the last byte. */
  method DataArchive(deb: seq<Byte>) returns (r: Option<(string, seq<Byte>)>)
    ensures r.Some? ==> Accepted(deb, r.value)
    ensures r.None? ==> forall data :: !Accepted(deb, data)
  {
    hide ReadMembers, ReadMember, Legal, Gathered, WellFormed, PrintMembers, Name, Size, Accepted, ReadsOn, IsAscii;
    if !(MAGIC <= deb) {
      NotPackage(deb);
      return None;
    }
    var offset, members, data: Option<(string, seq<Byte>)> := 8, {}, None;
    ghost var done: seq<Member>, k: nat := [], 0;
    NoneGathered();
    StartsReading(deb[8..]);
    while offset < |deb|
      invariant 8 <= offset
      invariant offset <= |deb| ==> Gathered(done, members, data, k) && ReadsOn(deb[8..], done, deb[offset..])
      invariant offset > |deb| ==> forall d :: !Accepted(deb, d)
      decreases |deb| - offset
    {
      MemberAt(deb, offset);
      OneRound(deb, offset, done, members, data, k);
      ghost var next := ReadMember(deb[offset..]);
      if offset + 60 > |deb| || deb[offset + 58..offset + 60] != END || !IsAscii(deb[offset..offset + 16]) {
        return None;
      }
      var name := Name(deb[offset..offset + 16]);
      if name in members || |members| >= 8 {
        return None;
      }
      var size := Size(deb[offset + 48..offset + 58]);
      if size.None? || size.value > MAX_PACKAGE || offset + 60 + size.value > |deb| {
        return None;
      }
      var payload := deb[offset + 60..offset + 60 + size.value];
      if name == FORMAT {
        if payload != Encoded("2.0\n") {
          return None;
        }
      } else if name in DATA {
        if data.Some? {
          return None;
        }
      } else if name !in CONTROL {
        return None;
      }
      if name in DATA {
        data := Some((name, payload));
        k := |done|;
      }
      members := members + {name};
      if next.Some? { done := done + [next.value]; }
      offset := offset + 60 + size.value + size.value % 2;
    }
    if offset == |deb| {
      assert deb[offset..] == [];
      Finish(deb, done, members, data, k);
    }
    if offset != |deb| || FORMAT !in members || data.None? {
      return None;
    }
    return data;
  }

  lemma RestOfRest(deb: seq<Byte>, offset: nat, n: nat)
    requires offset + n <= |deb|
    ensures deb[offset..][n..] == deb[offset + n..]
  {
  }

  lemma StartsReading(s: seq<Byte>)
    ensures ReadsOn(s, [], s)
  {
    hide ReadMembers;
    if ReadMembers(s).Some? { assert [] + ReadMembers(s).value == ReadMembers(s).value; }
  }

  // ---------------------------------------------------------------- the end of a tar archive

  predicate Zeros(s: seq<Byte>) { forall i | 0 <= i < |s| :: s[i] == 0 }

  function StripEnd(s: seq<Byte>): (t: seq<Byte>) {
    if s == [] || (s[|s| - 1] != 0 && s[|s| - 1] != 32) then s else StripEnd(s[..|s| - 1])
  }

  function StripStart(s: seq<Byte>): (t: seq<Byte>) {
    if s == [] || (s[0] != 0 && s[0] != 32) then s else StripStart(s[1..])
  }

  predicate IsOctal(s: seq<Byte>) { s != [] && forall i | 0 <= i < |s| :: 48 <= s[i] < 56 }

  function OctalValue(s: seq<Byte>): (n: nat)
    requires IsOctal(s) || s == []
  {
    if s == [] then 0 else OctalValue(s[..|s| - 1]) * 8 + (s[|s| - 1] - 48)
  }

  /** The content size a header names, in octal between zero bytes and spaces. */
  function TarSize(header: seq<Byte>): (n: Option<nat>)
    requires |header| == 512
  {
    var field := StripEnd(StripStart(header[124..136]));
    if IsOctal(field) then Some(OctalValue(field)) else None
  }

  function Blocks(size: nat): (n: nat) { (size + 511) / 512 * 512 }

  /** A record: a header that is not all zero and as many whole blocks as its size needs. */
  predicate IsRecord(r: seq<Byte>) {
    && |r| >= 512 && !Zeros(r[..512])
    && TarSize(r[..512]).Some?
    && |r| == 512 + Blocks(TarSize(r[..512]).value)
  }

  function Joined(rs: seq<seq<Byte>>): (s: seq<Byte>) {
    if rs == [] then [] else rs[0] + Joined(rs[1..])
  }

  /** The grammar: records, then two zero blocks, then only zeros. */
  ghost predicate Tiled(raw: seq<Byte>, rs: seq<seq<Byte>>, tail: seq<Byte>) {
    && raw == Joined(rs) + tail
    && (forall r | r in rs :: IsRecord(r))
    && |rs| <= 8192 && |tail| >= 1024 && Zeros(tail)
  }

  /** How many records the scan passes before the end marker, if it finds one. */
  function Records(s: seq<Byte>): (n: Option<nat>)
    decreases |s|
  {
    if |s| < 512 then None
    else if Zeros(s[..512]) then (if |s| >= 1024 && Zeros(s) then Some(0) else None)
    else
      var size := TarSize(s[..512]);
      if size.None? || 512 + Blocks(size.value) > |s| then None
      else
        var rest := Records(s[512 + Blocks(size.value)..]);
        if rest.None? then None else Some(rest.value + 1)
  }

  /** The scan is the grammar, read off the bytes. */
  lemma {:induction false} TiledReads(rs: seq<seq<Byte>>, tail: seq<Byte>)
    requires (forall r | r in rs :: IsRecord(r)) && |tail| >= 1024 && Zeros(tail)
    ensures Records(Joined(rs) + tail) == Some(|rs|)
    decreases |rs|
  {
    hide TarSize, Blocks;
    if rs == [] {
      assert Joined(rs) + tail == tail;
      assert Zeros(tail[..512]);
    } else {
      TiledReads(rs[1..], tail);
      var (r, more) := (rs[0], Joined(rs[1..]) + tail);
      assert r in rs && IsRecord(r);
      FirstRecord(r, more);
      assert Joined(rs) + tail == r + more;
    }
  }

  lemma FirstRecord(r: seq<Byte>, more: seq<Byte>)
    requires IsRecord(r)
    ensures Records(r + more) == (var n := Records(more); if n.None? then None else Some(n.value + 1))
  {
    hide TarSize, Blocks;
    assert (r + more)[..512] == r[..512];
    assert (r + more)[|r|..] == more;
  }

  lemma {:induction false} ReadsTile(s: seq<Byte>) returns (rs: seq<seq<Byte>>, tail: seq<Byte>)
    requires Records(s).Some?
    ensures s == Joined(rs) + tail && (forall r | r in rs :: IsRecord(r)) && |rs| == Records(s).value
    ensures |tail| >= 1024 && Zeros(tail)
    decreases |s|
  {
    hide TarSize, Blocks;
    if Zeros(s[..512]) {
      rs, tail := [], s;
      assert Joined([]) + s == s;
    } else {
      var n := 512 + Blocks(TarSize(s[..512]).value);
      rs, tail := ReadsTile(s[n..]);
      var r := s[..n];
      assert r[..512] == s[..512];
      assert s == r + s[n..];
      rs := [r] + rs;
      assert rs[1..] == rs[1..] && Joined(rs) == r + Joined(rs[1..]);
    }
  }

  ghost predicate TarAccepted(raw: seq<Byte>) {
    |raw| % 512 == 0 && exists rs: seq<seq<Byte>>, tail: seq<Byte> :: Tiled(raw, rs, tail)
  }

  lemma AcceptedIsRecords(raw: seq<Byte>)
    ensures TarAccepted(raw) <==> |raw| % 512 == 0 && Records(raw).Some? && Records(raw).value <= 8192
  {
    hide Records, IsRecord, Joined;
    if |raw| % 512 == 0 && Records(raw).Some? && Records(raw).value <= 8192 {
      var rs, tail := ReadsTile(raw);
      assert Tiled(raw, rs, tail);
    }
    if TarAccepted(raw) {
      var rs: seq<seq<Byte>>, tail: seq<Byte> :| Tiled(raw, rs, tail);
      TiledReads(rs, tail);
    }
  }

  /** Accepted are exactly the aligned byte strings that records, two zero blocks and zeros tile. */
  method ValidateTarEnd(raw: seq<Byte>) returns (ok: bool)
    ensures ok <==> TarAccepted(raw)
  {
    hide TarSize, Blocks, TarAccepted, Zeros;
    AcceptedIsRecords(raw);
    if |raw| % 512 != 0 {
      return false;
    }
    var offset, records := 0, 0;
    assert raw[0..] == raw;
    while offset + 512 <= |raw|
      invariant 0 <= offset <= |raw| && offset % 512 == 0 && records <= 8192
      invariant Records(raw) == (var n := Records(raw[offset..]); if n.None? then None else Some(n.value + records))
      decreases |raw| - offset
    {
      ghost var rest := raw[offset..];
      var header := raw[offset..offset + 512];
      assert rest[..512] == header;
      if Zeros(header) {
        if offset + 1024 > |raw| || !Zeros(raw[offset + 512..offset + 1024]) || !Zeros(raw[offset + 1024..]) {
          TailNotZero(raw, offset);
          return false;
        }
        TailZero(raw, offset);
        return true;
      }
      var size := TarSize(header);
      if size.None? {
        return false;
      }
      BlocksFit(size.value);
      var next := offset + 512 + Blocks(size.value);
      if next > |raw| {
        return false;
      }
      assert rest[512 + Blocks(size.value)..] == raw[next..];
      offset := next;
      records := records + 1;
      if records > 8192 {
        return false;
      }
    }
    return false;
  }

  lemma BlocksFit(size: nat)
    ensures Blocks(size) % 512 == 0
  {
  }

  lemma TailNotZero(raw: seq<Byte>, offset: nat)
    requires offset + 512 <= |raw| && Zeros(raw[offset..offset + 512])
    requires offset + 1024 > |raw| || !Zeros(raw[offset + 512..offset + 1024]) || !Zeros(raw[offset + 1024..])
    ensures |raw[offset..]| < 1024 || !Zeros(raw[offset..])
  {
    var rest := raw[offset..];
    if offset + 1024 <= |raw| {
      assert raw[offset + 512..offset + 1024] == rest[512..1024];
      assert raw[offset + 1024..] == rest[1024..];
    }
  }

  lemma TailZero(raw: seq<Byte>, offset: nat)
    requires offset + 1024 <= |raw| && Zeros(raw[offset..offset + 512])
    requires Zeros(raw[offset + 512..offset + 1024]) && Zeros(raw[offset + 1024..])
    ensures Zeros(raw[offset..])
  {
    forall i | 0 <= i < |raw[offset..]| ensures raw[offset..][i] == 0 {
      if i < 512 { assert raw[offset..offset + 512][i] == 0; }
      else if i < 1024 { assert raw[offset + 512..offset + 1024][i - 512] == 0; }
      else { assert raw[offset + 1024..][i - 1024] == 0; }
    }
  }
}
