/** The names of temporary files: "<file>__<start>__<length>__<timestamp>~".
  * utils/peer2peer.c prints them in the coordinator and in the workers and parses them
  * again when an interrupted piece is handed to another peer. */
module TempName {
  import opened Wrappers
  import opened CTypes

  const SEP: string := "__"

  /** What the parser fills in of a peer_info_t. */
  datatype PieceInfo = PieceInfo(fileName: string, start: int, len: int, timestamp: nat)

  predicate IsDigit(c: char) {
    '0' <= c <= '9'
  }

  predicate AllDigits(s: string) {
    forall i :: 0 <= i < |s| ==> IsDigit(s[i])
  }

  /** Neither "_" nor "~", the marks between the fields. */
  predicate NoMark(s: string) {
    forall i :: 0 <= i < |s| ==> s[i] != '_' && s[i] != '~'
  }

  /** The text printf produces for a number that is not negative. */
  function Decimal(n: nat): (s: string)
    ensures s != [] && AllDigits(s)
  {
    if n < 10 then ['0' + n as char] else Decimal(n / 10) + ['0' + (n % 10) as char]
  }

  /** The text for an int. */
  function Signed(n: int): (s: string)
    ensures s != [] && NoMark(s)
  {
    if n < 0 then ['-'] + Decimal(-n) else Decimal(n)
  }

  function Print(name: string, start: int, len: int, timestamp: nat): string {
    name + SEP + (Signed(start) + SEP + (Signed(len) + SEP + (Signed(timestamp) + "~")))
  }

  /** The names the format can carry: no "__" inside and no "_" at the end. */
  predicate GoodName(name: string) {
    && (forall i :: 0 <= i < |name| - 1 ==> !(name[i] == '_' && name[i + 1] == '_'))
    && (name != [] ==> name[|name| - 1] != '_')
  }

  // ---------- reading a name back ----------

  /** strstr: the position of the first occurrence of the separator. */
  function Find(s: string, sep: string): (r: Option<nat>)
    requires sep != []
    ensures r.Some? ==> r.value + |sep| <= |s| && s[r.value..r.value + |sep|] == sep
  {
    if |s| < |sep| then None
    else if s[..|sep|] == sep then Some(0)
    else match Find(s[1..], sep)
      case None => None
      case Some(k) => Some(k + 1)
  }

  /** What stands before the first occurrence of the separator, and what after it. */
  function Cut(s: string, sep: string): Option<(string, string)>
    requires sep != []
  {
    match Find(s, sep)
    case None => None
    case Some(k) => Some((s[..k], s[k + |sep|..]))
  }

  /** The digits at the front of the text, as a number, after those already read. */
  function ReadDigits(s: string, acc: nat): nat {
    if s == [] || !IsDigit(s[0]) then acc
    else ReadDigits(s[1..], 10 * acc + (s[0] as int - '0' as int))
  }

  function SkipBlanks(s: string): string {
    if s != [] && (s[0] == ' ' || '\t' <= s[0] <= '\r') then SkipBlanks(s[1..]) else s
  }

  /** atoi and atol: blanks, an optional sign, digits; whatever follows is ignored. */
  function Atoi(s: string): int {
    var t := SkipBlanks(s);
    if t != [] && t[0] == '-' then 0 - ReadDigits(t[1..], 0)
    else if t != [] && t[0] == '+' then ReadDigits(t[1..], 0)
    else ReadDigits(t, 0)
  }

  /** The three numbers behind the file name. */
  function ParseNumbers(name: string, s1: string): Option<PieceInfo> {
    match Cut(s1, SEP)
    case None => None
    case Some((start, s2)) =>
      match Cut(s2, SEP)
      case None => None
      case Some((len, s3)) =>
        match Cut(s3, "~")
        case None => None
        case Some((stamp, _)) =>
          Some(PieceInfo(name, Atoi(start), Atoi(len), Atoi(stamp) % UINT_LIMIT))
  }

  /** The four fields of a temporary name; None where the C code would follow a null pointer. */
  function Parse(s: string): Option<PieceInfo> {
    match Cut(s, SEP)
    case None => None
    case Some((name, s1)) => ParseNumbers(name, s1)
  }

  /** One position further, if the separator is not here. */
  lemma FindNext(s: string, sep: string, k: nat)
    requires sep != [] && k <= |s|
    ensures |s| < k + |sep| ==> Find(s[k..], sep) == None
    ensures k + |sep| <= |s| && s[k..k + |sep|] == sep ==> Find(s[k..], sep) == Some(0)
    ensures k + |sep| <= |s| && s[k..k + |sep|] != sep ==>
              Find(s[k..], sep) == match Find(s[k + 1..], sep) case None => None case Some(d) => Some(d + 1)
  {
    if k + |sep| <= |s| {
      assert s[k..][..|sep|] == s[k..k + |sep|];
      assert s[k..][1..] == s[k + 1..];
    }
  }

  /** strstr as a loop: the position of the first match at or after `from`, or -1. */
  method StrStr(s: string, sep: string, from: nat) returns (k: int)
    requires from <= |s| && sep != []
    ensures match Find(s[from..], sep)
            case None => k == -1
            case Some(d) => k == from + d && k + |sep| <= |s|
  {
    hide Find;
    k := from;
    FindNext(s, sep, k);
    while k + |sep| <= |s|
      invariant from <= k <= |s|
      invariant match Find(s[k..], sep)
                case None => Find(s[from..], sep) == None
                case Some(d) => Find(s[from..], sep) == Some(k - from + d)
      decreases |s| - k
    {
      FindNext(s, sep, k);
      if s[k..k + |sep|] == sep { return; }
      k := k + 1;
      FindNext(s, sep, k);
    }
    k := -1;
  }

  /** One move of the parser's cursor: the text up to the next separator, and the position
    * behind it. */
  method NextField(s: string, sep: string, last: nat) returns (field: Option<string>, next: nat)
    requires last <= |s| && sep != []
    ensures next <= |s|
    ensures Cut(s[last..], sep) == if field.None? then None else Some((field.value, s[next..]))
  {
    var pch := StrStr(s, sep, last);
    if pch == -1 { return None, last; }
    field, next := Some(s[last..pch]), pch + |sep|;
    assert s[last..][..pch - last] == s[last..pch];
    assert s[last..][pch - last + |sep|..] == s[next..];
  }

  /** parse_tmpt_file_name: the cursor moves from separator to separator over the name. */
  method ParseTempFileName(s: string) returns (info: Option<PieceInfo>)
    ensures info == Parse(s)
  {
    assert s[0..] == s;
    var name, last := NextField(s, SEP, 0);
    if name.None? { return None; }
    var start, last1 := NextField(s, SEP, last);
    if start.None? { return None; }
    var len, last2 := NextField(s, SEP, last1);
    if len.None? { return None; }
    var stamp, last3 := NextField(s, "~", last2);
    if stamp.None? { return None; }
    info := Some(PieceInfo(name.value, Atoi(start.value), Atoi(len.value), Atoi(stamp.value) % UINT_LIMIT));
  }

  // ---------- the round trip ----------

  lemma {:induction false} ReadDigitsConcat(a: string, b: string, acc: nat)
    requires AllDigits(a)
    ensures ReadDigits(a + b, acc) == ReadDigits(b, ReadDigits(a, acc))
  {
    if a == [] {
      assert a + b == b;
    } else {
      assert (a + b)[1..] == a[1..] + b;
      ReadDigitsConcat(a[1..], b, 10 * acc + (a[0] as int - '0' as int));
    }
  }

  lemma {:induction false} ReadDigitsDecimal(n: nat)
    ensures ReadDigits(Decimal(n), 0) == n
  {
    if n < 10 {
      assert Decimal(n)[1..] == [];
    } else {
      ReadDigitsDecimal(n / 10);
      var last := ['0' + (n % 10) as char];
      ReadDigitsConcat(Decimal(n / 10), last, 0);
      assert last[1..] == [];
      assert ReadDigits(last, n / 10) == 10 * (n / 10) + n % 10;
    }
  }

  /** A printed number is read back unchanged. */
  lemma AtoiSigned(n: int)
    ensures Atoi(Signed(n)) == n
  {
    var s := Decimal(if n < 0 then -n else n);
    assert IsDigit(s[0]);
    ReadDigitsDecimal(if n < 0 then -n else n);
    if n < 0 {
      assert Signed(n)[1..] == s;
    }
  }

  /** The first "__" after a good name is the one printed behind it; after any other name an
    * earlier one is found. */
  lemma {:induction false} FindAfterName(name: string, rest: string)
    ensures var r := Find(name + SEP + rest, SEP);
            r.Some? && r.value <= |name| && (r.value == |name| <==> GoodName(name))
  {
    var s := name + SEP + rest;
    if name == [] {
      assert s[..2] == SEP;
    } else {
      assert s[1..] == name[1..] + SEP + rest;
      FindAfterName(name[1..], rest);
      assert s[..2] == [s[0], s[1]];
      assert s[1] == if |name| == 1 then '_' else name[1];
      assert s[..2] != SEP ==> (GoodName(name) <==> GoodName(name[1..]));
    }
  }

  lemma {:induction false} FindAfterField(a: string, sep: string, rest: string)
    requires sep != [] && forall i :: 0 <= i < |a| ==> a[i] != sep[0]
    ensures Find(a + sep + rest, sep) == Some(|a|)
  {
    var s := a + sep + rest;
    if a == [] {
      assert s[..|sep|] == sep;
    } else {
      assert s[1..] == a[1..] + sep + rest;
      assert s[..|sep|][0] == a[0];
      FindAfterField(a[1..], sep, rest);
    }
  }

  lemma CutField(a: string, sep: string, rest: string)
    requires sep != [] && forall i :: 0 <= i < |a| ==> a[i] != sep[0]
    ensures Cut(a + sep + rest, sep) == Some((a, rest))
  {
    FindAfterField(a, sep, rest);
    var s := a + sep + rest;
    assert s[..|a|] == a && s[|a| + |sep|..] == rest;
  }

  /** The part of a temporary name behind the file name. */
  function Numbers(start: int, len: int, timestamp: nat): string {
    Signed(start) + SEP + (Signed(len) + SEP + (Signed(timestamp) + "~"))
  }

  lemma CutNumbers(start: int, len: int, timestamp: nat)
    ensures Cut(Numbers(start, len, timestamp), SEP) ==
            Some((Signed(start), Signed(len) + SEP + (Signed(timestamp) + "~")))
    ensures Cut(Signed(len) + SEP + (Signed(timestamp) + "~"), SEP) ==
            Some((Signed(len), Signed(timestamp) + "~"))
    ensures Cut(Signed(timestamp) + "~", "~") == Some((Signed(timestamp), []))
  {
    CutField(Signed(start), SEP, Signed(len) + SEP + (Signed(timestamp) + "~"));
    CutField(Signed(len), SEP, Signed(timestamp) + "~");
    CutField(Signed(timestamp), "~", []);
    assert Signed(timestamp) + "~" + [] == Signed(timestamp) + "~";
  }

  /** The first cut of a temporary name takes off the file name if that is good, and less
    * otherwise. */
  lemma CutName(name: string, start: int, len: int, timestamp: nat)
    ensures var r := Cut(Print(name, start, len, timestamp), SEP);
            r.Some? && (if GoodName(name) then r.value == (name, Numbers(start, len, timestamp))
                        else |r.value.0| < |name|)
  {
    var rest := Numbers(start, len, timestamp);
    var s := name + SEP + rest;
    FindAfterName(name, rest);
    assert s[..|name|] == name && s[|name| + 2..] == rest;
  }

  lemma ParsePrintedNumbers(name: string, start: int, len: int, timestamp: nat)
    requires timestamp < UINT_LIMIT
    ensures ParseNumbers(name, Numbers(start, len, timestamp)) ==
            Some(PieceInfo(name, start, len, timestamp))
  {
    hide Cut, Atoi, Signed;
    CutNumbers(start, len, timestamp);
    AtoiSigned(start);
    AtoiSigned(len);
    AtoiSigned(timestamp);
  }

  lemma ParseGood(name: string, start: int, len: int, timestamp: nat)
    requires GoodName(name) && timestamp < UINT_LIMIT
    ensures Parse(Print(name, start, len, timestamp)) == Some(PieceInfo(name, start, len, timestamp))
  {
    CutName(name, start, len, timestamp);
    ParsePrintedNumbers(name, start, len, timestamp);
  }

  /** A separator that stands somewhere is found, there or earlier, and what stands behind it
    * stays the end of what is left. */
  lemma {:induction false} CutBefore(pre: string, sep: string, post: string)
    requires sep != []
    ensures var r := Cut(pre + sep + post, sep);
            r.Some? && |post| <= |r.value.1| && r.value.1[|r.value.1| - |post|..] == post
  {
    var s := pre + sep + post;
    if pre == [] {
      assert s[..|sep|] == sep && s[|sep|..] == post;
    } else if s[..|sep|] == sep {
      assert s[|sep|..][|s| - |sep| - |post|..] == s[|s| - |post|..] == post;
    } else {
      assert s[1..] == pre[1..] + sep + post;
      CutBefore(pre[1..], sep, post);
      var k := Find(s[1..], sep).value;
      assert s[1..][k + |sep|..] == s[k + 1 + |sep|..];
    }
  }

  /** Every text that ends like the numbers can be parsed into fields. */
  lemma ParseEnding(name: string, pre: string, start: int, len: int, timestamp: nat)
    ensures ParseNumbers(name, pre + Numbers(start, len, timestamp)).Some?
  {
    hide Cut, Atoi, Signed;
    var n2 := Signed(len) + SEP + (Signed(timestamp) + "~");
    var n3 := Signed(timestamp) + "~";
    assert pre + Numbers(start, len, timestamp) == (pre + Signed(start)) + SEP + n2;
    CutBefore(pre + Signed(start), SEP, n2);
    var s2 := Cut(pre + Numbers(start, len, timestamp), SEP).value.1;
    var p2 := s2[..|s2| - |n2|];
    assert s2 == (p2 + Signed(len)) + SEP + n3;
    CutBefore(p2 + Signed(len), SEP, n3);
    var s3 := Cut(s2, SEP).value.1;
    var p3 := s3[..|s3| - |n3|];
    assert s3 == (p3 + Signed(timestamp)) + "~" + [];
    CutBefore(p3 + Signed(timestamp), "~", []);
  }

  /** No printed name makes the parser follow a null pointer, whatever the file is called. */
  lemma ParsesAlways(name: string, start: int, len: int, timestamp: nat)
    ensures Parse(Print(name, start, len, timestamp)).Some?
  {
    hide Atoi, Signed, ParseNumbers;
    var rest := Numbers(start, len, timestamp);
    var s := name + SEP + rest;
    CutBefore(name, SEP, rest);
    var s1 := Cut(s, SEP).value.1;
    assert s1 == s1[..|s1| - |rest|] + rest;
    ParseEnding(Cut(s, SEP).value.0, s1[..|s1| - |rest|], start, len, timestamp);
  }

  lemma ParseBad(name: string, start: int, len: int, timestamp: nat)
    requires !GoodName(name)
    ensures var r := Parse(Print(name, start, len, timestamp));
            r.Some? && |r.value.fileName| < |name|
  {
    CutName(name, start, len, timestamp);
    ParsesAlways(name, start, len, timestamp);
  }

  /** The round trip and its exact domain: a temporary name gives back what it was printed
    * from if and only if the file name is good; of any other file name a shorter piece comes
    * back. */
  lemma RoundTrip(name: string, start: int, len: int, timestamp: nat)
    requires timestamp < UINT_LIMIT
    ensures Parse(Print(name, start, len, timestamp)) == Some(PieceInfo(name, start, len, timestamp))
            <==> GoodName(name)
    ensures var r := Parse(Print(name, start, len, timestamp));
            r.Some? && (!GoodName(name) ==> |r.value.fileName| < |name|)
  {
    if GoodName(name) {
      ParseGood(name, start, len, timestamp);
    } else {
      ParseBad(name, start, len, timestamp);
    }
  }

  /** How many "_" a text has. */
  function Bars(s: string): nat {
    if s == [] then 0 else Bars(s[..|s| - 1]) + (if s[|s| - 1] == '_' then 1 else 0)
  }

  lemma {:induction false} BarsConcat(a: string, b: string)
    ensures Bars(a + b) == Bars(a) + Bars(b)
    decreases |b|
  {
    if b == [] {
      assert a + b == a;
    } else {
      assert (a + b)[..|a + b| - 1] == a + b[..|b| - 1];
      BarsConcat(a, b[..|b| - 1]);
    }
  }

  lemma {:induction false} NoBars(s: string)
    requires NoMark(s)
    ensures Bars(s) == 0
    decreases |s|
  {
    if s != [] {
      NoBars(s[..|s| - 1]);
    }
  }

  lemma SepBars()
    ensures Bars(SEP) == 2 && Bars("~") == 0
  {
    assert SEP == "_" + "_";
    BarsConcat("_", "_");
  }

  /** The part behind the file name has four "_". */
  lemma NumbersBars(start: int, len: int, timestamp: nat)
    ensures Bars(Numbers(start, len, timestamp)) == 4
  {
    var d1, d2, d3 := Signed(start), Signed(len), Signed(timestamp);
    SepBars();
    NoBars(d1);
    NoBars(d2);
    NoBars(d3);
    BarsConcat(d3, "~");
    BarsConcat(d2, SEP);
    BarsConcat(d2 + SEP, d3 + "~");
    BarsConcat(d1, SEP);
    BarsConcat(d1 + SEP, d2 + SEP + (d3 + "~"));
  }

  /** A longer file name would leave too few "_" for the numbers. */
  lemma NotShorter(name: string, rest: string, name': string, rest': string)
    requires name + SEP + rest == name' + SEP + rest' && Bars(rest) == Bars(rest') == 4
    ensures |name| >= |name'|
  {
    if |name| < |name'| {
      var s := name + SEP + rest;
      var k := |rest| - |rest'| - 2;
      SepBars();
      BarsConcat(SEP, rest');
      if k >= 0 {
        assert rest == s[|name| + 2..] && SEP + rest' == s[|name'|..];
        assert rest == rest[..k] + (SEP + rest');
        BarsConcat(rest[..k], SEP + rest');
      } else {
        assert |name'| == |name| + 1;
        assert rest' == s[|name| + 3..] && rest == s[|name| + 2..];
        assert rest == [rest[0]] + rest';
        BarsConcat([rest[0]], rest');
      }
    }
  }

  /** A temporary name fixes file, range and version, whatever the file is called: only the
    * parser loses some names. */
  lemma AllDistinct(name: string, start: int, len: int, timestamp: nat, name': string, start': int, len': int,
                    timestamp': nat)
    requires Print(name, start, len, timestamp) == Print(name', start', len', timestamp')
    ensures name == name' && start == start' && len == len' && timestamp == timestamp'
  {
    hide Bars;
    var a, b := Numbers(start, len, timestamp), Numbers(start', len', timestamp');
    NumbersBars(start, len, timestamp);
    NumbersBars(start', len', timestamp');
    NotShorter(name, a, name', b);
    NotShorter(name', b, name, a);
    var s, t := name + SEP + a, name' + SEP + b;
    assert name == s[..|name|] == t[..|name'|] == name';
    assert a == s[|name| + 2..] == t[|name'| + 2..] == b;
    CutNumbers(start, len, timestamp);
    CutNumbers(start', len', timestamp');
    AtoiSigned(start);
    AtoiSigned(start');
    AtoiSigned(len);
    AtoiSigned(len');
    AtoiSigned(timestamp);
    AtoiSigned(timestamp');
  }

  /** Of one version of a file, two temporary names agree only for the same range. */
  lemma SameFileDistinct(name: string, start: int, len: int, start': int, len': int, timestamp: nat)
    requires Print(name, start, len, timestamp) == Print(name, start', len', timestamp)
    ensures start == start' && len == len'
  {
    AllDistinct(name, start, len, timestamp, name, start', len', timestamp);
  }

  // ---------- the texts themselves ----------

  /** The fields stand in this order, with these marks. */
  lemma SamplePrinted()
    ensures Print("dir/f", 10, 7, 42) == "dir/f__10__7__42~"
    ensures Print("f", 0, 0, 0) == "f__0__0__0~"
    ensures Signed(-5) == "-5"
  {
    assert Decimal(10) == Decimal(1) + "0" && Decimal(42) == Decimal(4) + "2";
    assert Signed(10) == "10" && Signed(7) == "7" && Signed(42) == "42" && Signed(0) == "0";
    var end := Signed(42) + "~";
    assert end == "42~";
    assert Signed(7) + SEP + end == "7__42~";
    assert Signed(10) + SEP + (Signed(7) + SEP + end) == "10__7__42~";
    assert Signed(0) + SEP + (Signed(0) + "~") == "0__0~";
    assert Signed(0) + SEP + (Signed(0) + SEP + (Signed(0) + "~")) == "0__0__0~";
  }

  lemma PrintEnds(name: string, start: int, len: int, timestamp: nat)
    ensures var s := Print(name, start, len, timestamp); s != [] && s[|s| - 1] == '~'
  {
  }

  lemma {:induction false} BlanksSkipped(blanks: string, s: string)
    requires forall i :: 0 <= i < |blanks| ==> blanks[i] == ' '
    requires s != [] && s[0] != ' ' && !('\t' <= s[0] <= '\r')
    ensures SkipBlanks(blanks + s) == s
  {
    if blanks == [] {
      assert blanks + s == s;
    } else {
      assert (blanks + s)[1..] == blanks[1..] + s;
      BlanksSkipped(blanks[1..], s);
    }
  }

  /** atoi: blanks are skipped, a sign is read, and what is no digit ends the number. */
  lemma {:induction false} AtoiReads(blanks: string, digits: string, rest: string)
    requires forall i :: 0 <= i < |blanks| ==> blanks[i] == ' '
    requires digits != [] && AllDigits(digits) && (rest != [] ==> !IsDigit(rest[0]))
    ensures Atoi(blanks + digits + rest) == ReadDigits(digits, 0)
    ensures Atoi(blanks + (['+'] + digits + rest)) == ReadDigits(digits, 0)
    ensures Atoi(blanks + (['-'] + digits + rest)) == 0 - ReadDigits(digits, 0)
  {
    ReadDigitsConcat(digits, rest, 0);
    assert blanks + digits + rest == blanks + (digits + rest);
    BlanksSkipped(blanks, digits + rest);
    BlanksSkipped(blanks, ['+'] + digits + rest);
    BlanksSkipped(blanks, ['-'] + digits + rest);
    assert (['+'] + digits + rest)[1..] == digits + rest && (['-'] + digits + rest)[1..] == digits + rest;
  }

  /** A number is read digit by digit, the first counting most. */
  lemma {:induction false} DigitsRead(s: string, d: char)
    requires AllDigits(s) && IsDigit(d)
    ensures ReadDigits(s + [d], 0) == 10 * ReadDigits(s, 0) + (d as int - '0' as int)
  {
    ReadDigitsConcat(s, [d], 0);
    assert [d][1..] == [];
  }

  /** A time is read modulo 2^32, also a negative one. */
  lemma StampWraps(start: string, len: string, stamp: string)
    requires NoMark(start) && NoMark(len) && NoMark(stamp)
    ensures Parse("f" + SEP + (start + SEP + (len + SEP + (stamp + "~")))) ==
            Some(PieceInfo("f", Atoi(start), Atoi(len), Atoi(stamp) % 0x1_0000_0000))
  {
    hide Atoi;
    CutField("f", SEP, start + SEP + (len + SEP + (stamp + "~")));
    CutField(start, SEP, len + SEP + (stamp + "~"));
    CutField(len, SEP, stamp + "~");
    CutField(stamp, "~", []);
    assert stamp + "~" + [] == stamp + "~";
  }
}
