/**
 Settings and padding negotiation: the text helpers of src/protocol/anytls/codec.rs, the
 server's SETTINGS branch and the client's padding-update branch.

 Text is handled as UTF-8 bytes; `lines` and `join` only look at the ASCII bytes LF and CR.
 */
module AnytlsSettings {
  import opened Bytes

  const LF: byte := 10
  const CR: byte := 13
  const EQUALS: byte := 61

  // Lines

  function IndexOf(s: seq<byte>, b: byte): (i: nat)
    ensures i <= |s|
    ensures i < |s| ==> s[i] == b
    ensures forall j :: 0 <= j < i ==> s[j] != b
  {
    if s == [] || s[0] == b then 0 else 1 + IndexOf(s[1..], b)
  }

  function StripCr(s: seq<byte>): seq<byte> {
    if s != [] && s[|s| - 1] == CR then s[..|s| - 1] else s
  }

  /** `str::lines`: LF or CR LF ends a line, and no empty line follows the last ending. */
  function Lines(s: seq<byte>): (r: seq<seq<byte>>)
    decreases |s|
  {
    if s == [] then []
    else
      var k := IndexOf(s, LF);
      if k == |s| then [s] else [StripCr(s[..k])] + Lines(s[k + 1..])
  }

  function Join(lines: seq<seq<byte>>): (r: seq<byte>) {
    if lines == [] then []
    else if |lines| == 1 then lines[0]
    else lines[0] + [LF] + Join(lines[1..])
  }

  /** Lines that survive being joined and split: none contains LF, none but the last ends in CR, and the last is not empty. */
  predicate Clean(lines: seq<seq<byte>>) {
    && (forall i :: 0 <= i < |lines| ==> LF !in lines[i])
    && (forall i :: 0 <= i < |lines| - 1 ==> StripCr(lines[i]) == lines[i])
    && (lines != [] ==> lines[|lines| - 1] != [])
  }

  lemma {:induction false} IndexOfFirst(s: seq<byte>, b: byte, rest: seq<byte>)
    requires b !in s
    ensures IndexOf(s + [b] + rest, b) == |s|
    ensures IndexOf(s, b) == |s|
  {
    var all := s + [b] + rest;
    assert all[|s|] == b;
    assert forall j :: 0 <= j < |s| ==> all[j] == s[j];
  }

  lemma {:induction false} LinesOfJoin(lines: seq<seq<byte>>)
    requires Clean(lines)
    ensures Lines(Join(lines)) == lines
  {
    if |lines| == 1 {
      IndexOfFirst(lines[0], LF, []);
    } else if |lines| > 1 {
      assert Clean(lines[1..]);
      LinesOfJoin(lines[1..]);
      assert Join(lines) == lines[0] + [LF] + Join(lines[1..]);
      hide Join;
      FirstLine(lines[0], Join(lines[1..]));
    }
  }

  lemma FirstLine(line: seq<byte>, rest: seq<byte>)
    requires LF !in line && StripCr(line) == line
    ensures Lines(line + [LF] + rest) == [line] + Lines(rest)
  {
    var text := line + [LF] + rest;
    IndexOfFirst(line, LF, rest);
    assert text[..|line|] == line && text[|line| + 1..] == rest;
  }

  /** A text that survives being split and joined: it has no CR LF and does not end in LF. */
  predicate Faithful(s: seq<byte>) {
    && s != [] && s[|s| - 1] != LF
    && (forall i :: 0 < i < |s| && s[i] == LF ==> s[i - 1] != CR)
  }

  lemma {:induction false} LinesNotEmpty(s: seq<byte>)
    requires s != []
    ensures Lines(s) != []
  {}

  lemma {:induction false} JoinShrinks(s: seq<byte>)
    ensures |Join(Lines(s))| <= |s|
    decreases |s|
  {
    if s != [] && IndexOf(s, LF) < |s| {
      var k := IndexOf(s, LF);
      JoinOfFirst(s, k);
      hide Join, Lines, IndexOf;
      JoinShrinks(s[k + 1..]);
    }
  }

  lemma JoinOfFirst(s: seq<byte>, k: nat)
    requires k == IndexOf(s, LF) < |s|
    ensures Join(Lines(s)) == if k + 1 == |s| then StripCr(s[..k]) else StripCr(s[..k]) + [LF] + Join(Lines(s[k + 1..]))
  {
    var rest := Lines(s[k + 1..]);
    assert ([StripCr(s[..k])] + rest)[1..] == rest;
  }

  /** A text of one line is faithful unless it ends in LF. */
  lemma OneLine(s: seq<byte>)
    requires s != [] && IndexOf(s, LF) + 1 >= |s|
    ensures Join(Lines(s)) == s <==> Faithful(s)
  {
    var k := IndexOf(s, LF);
    if k < |s| {
      JoinOfFirst(s, k);
      assert |StripCr(s[..k])| < |s|;
    }
  }

  /** Splitting and joining gives a text back exactly when it is faithful. */
  lemma {:induction false} JoinOfLines(s: seq<byte>)
    requires s != []
    ensures Join(Lines(s)) == s <==> Faithful(s)
    decreases |s|
  {
    hide Join, Lines, Faithful;
    var k := IndexOf(s, LF);
    if k + 1 >= |s| {
      OneLine(s);
    } else {
      var line, tail := s[..k], s[k + 1..];
      JoinOfFirst(s, k);
      FaithfulTail(s, k);
      JoinOfLines(tail);
      JoinShrinks(tail);
      assert s == line + [LF] + tail;
      SameTail(line, StripCr(line), tail, Join(Lines(tail)));
    }
  }

  lemma SameTail(line: seq<byte>, kept: seq<byte>, tail: seq<byte>, rest: seq<byte>)
    requires (kept == line || |kept| < |line|) && |rest| <= |tail|
    ensures kept + [LF] + rest == line + [LF] + tail <==> kept == line && rest == tail
  {
    if kept == line && kept + [LF] + rest == line + [LF] + tail {
      assert rest == (line + [LF] + rest)[|line| + 1..];
      assert tail == (line + [LF] + tail)[|line| + 1..];
    }
  }

  lemma FaithfulTail(s: seq<byte>, k: nat)
    requires k + 1 < |s| && s[k] == LF && LF !in s[..k]
    ensures Faithful(s) <==> StripCr(s[..k]) == s[..k] && Faithful(s[k + 1..])
  {
    var tail := s[k + 1..];
    assert forall j :: 0 <= j < k ==> s[..k][j] == s[j];
    if StripCr(s[..k]) == s[..k] && Faithful(tail) {
      forall i | 0 < i < |s| && s[i] == LF ensures s[i - 1] != CR {
        assert i >= k;
        if i == k {
          assert s[..k][k - 1] == s[k - 1];
        } else if i > k + 1 {
          assert tail[i - k - 1] == LF && tail[i - k - 2] == s[i - 1];
        }
      }
    }
    if Faithful(s) {
      forall i | 0 < i < |tail| && tail[i] == LF ensures tail[i - 1] != CR {
        assert s[i + k + 1] == LF && tail[i - 1] == s[i + k];
      }
    }
  }

  // Settings

  function SplitOnce(line: seq<byte>): (r: Option<(seq<byte>, seq<byte>)>) {
    var k := IndexOf(line, EQUALS);
    if k == |line| then None else Some((line[..k], line[k + 1..]))
  }

  function FindValue(lines: seq<seq<byte>>, key: seq<byte>): (r: Option<seq<byte>>) {
    if lines == [] then None
    else
      var pair := SplitOnce(lines[0]);
      if pair.Some? && pair.value.0 == key then Some(pair.value.1) else FindValue(lines[1..], key)
  }

  function SettingsValue(data: seq<byte>, key: seq<byte>): (r: Option<seq<byte>>) {
    if ValidUtf8(data) then FindValue(Lines(data), key) else None
  }

  function Digits(s: seq<byte>, acc: nat): (r: Option<nat>)
    decreases |s|
  {
    if s == [] then Some(acc)
    else if 48 <= s[0] <= 57 && acc * 10 + (s[0] - 48) <= 255 then Digits(s[1..], acc * 10 + (s[0] - 48))
    else None
  }

  /** `str::parse::<u8>`: decimal digits, with an optional plus sign. */
  function ParseU8(s: seq<byte>): (r: Option<nat>) {
    var body := if s != [] && s[0] == 43 then s[1..] else s;
    if body == [] then None else Digits(body, 0)
  }

  /** "v", "2", "client", "rtunnel" and "padding-md5" */
  const KEY_V: seq<byte> := [118]
  const TWO: seq<byte> := [50]
  const KEY_CLIENT: seq<byte> := [99, 108, 105, 101, 110, 116]
  const RTUNNEL: seq<byte> := [114, 116, 117, 110, 110, 101, 108]
  const KEY_MD5: seq<byte> := [112, 97, 100, 100, 105, 110, 103, 45, 109, 100, 53]

  function Setting(name: seq<byte>, value: seq<byte>): seq<byte> {
    name + [EQUALS] + value
  }

  /** Whether a SETTINGS frame announces version 2 or later. */
  predicate AnnouncesV2(data: seq<byte>) {
    var value := SettingsValue(data, KEY_V);
    value.Some? && ParseU8(value.value).Some? && ParseU8(value.value).value >= 2
  }

  function ClientSettings(md5: seq<byte>): (r: seq<byte>) {
    Join([Setting(KEY_V, TWO), Setting(KEY_CLIENT, RTUNNEL), Setting(KEY_MD5, md5)])
  }

  lemma SplitAt(name: seq<byte>, value: seq<byte>)
    requires EQUALS !in name
    ensures SplitOnce(Setting(name, value)) == Some((name, value))
  {
    IndexOfFirst(name, EQUALS, value);
    assert (name + [EQUALS] + value)[..|name|] == name;
    assert (name + [EQUALS] + value)[|name| + 1..] == value;
  }

  lemma {:induction false} JoinUtf8(lines: seq<seq<byte>>)
    requires forall i :: 0 <= i < |lines| ==> ValidUtf8(lines[i])
    ensures ValidUtf8(Join(lines))
  {
    if |lines| > 1 {
      JoinUtf8(lines[1..]);
      AsciiIsUtf8([LF]);
      ValidUtf8Append(lines[0], [LF]);
      ValidUtf8Append(lines[0] + [LF], Join(lines[1..]));
    }
  }

  lemma SettingIsLine(name: seq<byte>, value: seq<byte>)
    requires LF !in name && LF !in value && ValidUtf8(name) && ValidUtf8(value)
    ensures LF !in Setting(name, value) && ValidUtf8(Setting(name, value)) && Setting(name, value) != []
    ensures value != [] && value[|value| - 1] != CR ==> StripCr(Setting(name, value)) == Setting(name, value)
  {
    AsciiIsUtf8([EQUALS]);
    ValidUtf8Append(name, [EQUALS]);
    ValidUtf8Append(name + [EQUALS], value);
  }

  lemma ThreeLines(x: seq<byte>, y: seq<byte>, z: seq<byte>)
    requires LF !in x && LF !in y && LF !in z && ValidUtf8(x) && ValidUtf8(y) && ValidUtf8(z)
    requires StripCr(x) == x && StripCr(y) == y && z != []
    ensures ValidUtf8(Join([x, y, z])) && Lines(Join([x, y, z])) == [x, y, z]
  {
    hide ValidUtf8, Join, Lines;
    assert Clean([x, y, z]);
    LinesOfJoin([x, y, z]);
    JoinUtf8([x, y, z]);
  }

  lemma FindThird(x: seq<byte>, y: seq<byte>, z: seq<byte>, key: seq<byte>)
    requires SplitOnce(x).Some? && SplitOnce(y).Some? && SplitOnce(z).Some?
    requires SplitOnce(x).value.0 != key && SplitOnce(y).value.0 != key && SplitOnce(z).value.0 == key
    ensures FindValue([x, y, z], key) == Some(SplitOnce(z).value.1)
  {
    hide SplitOnce;
    assert [x, y, z][1..] == [y, z] && [y, z][1..] == [z];
    assert FindValue([z], key) == Some(SplitOnce(z).value.1);
    assert FindValue([y, z], key) == FindValue([z], key);
  }

  lemma KeysAreAscii()
    ensures ValidUtf8(KEY_V) && ValidUtf8(TWO) && ValidUtf8(KEY_CLIENT) && ValidUtf8(RTUNNEL) && ValidUtf8(KEY_MD5)
  {
    hide ValidUtf8;
    AsciiIsUtf8(KEY_V);
    AsciiIsUtf8(TWO);
    AsciiIsUtf8(KEY_CLIENT);
    AsciiIsUtf8(RTUNNEL);
    AsciiIsUtf8(KEY_MD5);
  }

  lemma ClientSettingsLines(md5: seq<byte>)
    requires ValidUtf8(md5) && LF !in md5
    ensures ValidUtf8(ClientSettings(md5))
    ensures Lines(ClientSettings(md5)) == [Setting(KEY_V, TWO), Setting(KEY_CLIENT, RTUNNEL), Setting(KEY_MD5, md5)]
  {
    hide ValidUtf8, Setting, Join, Lines;
    KeysAreAscii();
    SettingIsLine(KEY_V, TWO);
    SettingIsLine(KEY_CLIENT, RTUNNEL);
    SettingIsLine(KEY_MD5, md5);
    ThreeLines(Setting(KEY_V, TWO), Setting(KEY_CLIENT, RTUNNEL), Setting(KEY_MD5, md5));
  }

  /** The server reads back the digest, and the version, that the client wrote. */
  lemma SettingsCarryDigest(md5: seq<byte>)
    requires ValidUtf8(md5) && LF !in md5
    ensures SettingsValue(ClientSettings(md5), KEY_MD5) == Some(md5)
    ensures AnnouncesV2(ClientSettings(md5))
  {
    hide ValidUtf8, ClientSettings, SplitOnce, Setting, Lines;
    ClientSettingsLines(md5);
    SplitAt(KEY_V, TWO);
    SplitAt(KEY_CLIENT, RTUNNEL);
    SplitAt(KEY_MD5, md5);
    assert |KEY_V| != |KEY_MD5| && |KEY_CLIENT| != |KEY_MD5|;
    FindThird(Setting(KEY_V, TWO), Setting(KEY_CLIENT, RTUNNEL), Setting(KEY_MD5, md5), KEY_MD5);
    TwoIsTwo();
  }

  // Values, exactly

  /** Line `i` is the first that sets `key`. */
  predicate FirstSets(lines: seq<seq<byte>>, key: seq<byte>, i: nat) {
    && i < |lines| && SplitOnce(lines[i]).Some? && SplitOnce(lines[i]).value.0 == key
    && forall j :: 0 <= j < i ==> SplitOnce(lines[j]).None? || SplitOnce(lines[j]).value.0 != key
  }

  /** A setting has the value that the first line with its name gives it, and none without such a line. */
  lemma {:induction false} FirstSettingCounts(lines: seq<seq<byte>>, key: seq<byte>)
    ensures FindValue(lines, key).None? <==> forall i :: 0 <= i < |lines| ==> SplitOnce(lines[i]).None? || SplitOnce(lines[i]).value.0 != key
    ensures forall i: nat :: FirstSets(lines, key, i) ==> FindValue(lines, key) == Some(SplitOnce(lines[i]).value.1)
  {
    hide SplitOnce;
    if lines != [] {
      FirstSettingCounts(lines[1..], key);
      assert forall i :: 0 < i < |lines| ==> lines[i] == lines[1..][i - 1];
      forall i: nat | FirstSets(lines, key, i) ensures FindValue(lines, key) == Some(SplitOnce(lines[i]).value.1) {
        if i > 0 {
          assert FirstSets(lines[1..], key, i - 1);
        }
      }
    }
  }

  predicate AllDigits(s: seq<byte>) {
    forall i :: 0 <= i < |s| ==> 48 <= s[i] <= 57
  }

  /** The number that decimal digits stand for. */
  function Number(s: seq<byte>): (n: nat)
    requires AllDigits(s)
  {
    if s == [] then 0 else 10 * Number(s[..|s| - 1]) + (s[|s| - 1] - 48)
  }

  lemma OneMoreDigit(done: seq<byte>, d: byte)
    requires AllDigits(done) && 48 <= d <= 57
    ensures AllDigits(done + [d]) && Number(done + [d]) == 10 * Number(done) + (d - 48)
  {
    assert (done + [d])[..|done|] == done;
  }

  lemma FirstDigit(s: seq<byte>, acc: nat)
    requires s != []
    ensures Digits(s, acc) ==
            if 48 <= s[0] <= 57 && 10 * acc + (s[0] - 48) <= 255 then Digits(s[1..], 10 * acc + (s[0] - 48)) else None
  {}

  /** What digits make of a number already read. */
  function Read(done: seq<byte>, s: seq<byte>): (r: Option<nat>) {
    if AllDigits(done + s) && Number(done + s) <= 255 then Some(Number(done + s)) else None
  }

  lemma {:induction false} DigitsAre(s: seq<byte>, done: seq<byte>)
    requires AllDigits(done) && Number(done) <= 255
    ensures Digits(s, Number(done)) == Read(done, s)
    decreases |s|
  {
    hide Number, AllDigits;
    if s == [] {
      assert done + s == done;
    } else {
      var d, rest := s[0], s[1..];
      hide Digits;
      FirstDigit(s, Number(done));
      assert [d] + rest == s;
      Associate(done, [d], rest);
      if 48 <= d <= 57 {
        OneMoreDigit(done, d);
        if Number(done + [d]) <= 255 {
          DigitsAre(rest, done + [d]);
        } else if AllDigits(done + s) {
          NumberGrows(done + [d], rest);
        }
      } else {
        NotDigit(done, s);
      }
    }
  }

  lemma NotDigit(done: seq<byte>, s: seq<byte>)
    requires s != [] && !(48 <= s[0] <= 57)
    ensures !AllDigits(done + s)
  {
    assert (done + s)[|done|] == s[0];
  }

  lemma {:induction false} NumberGrows(a: seq<byte>, b: seq<byte>)
    requires AllDigits(a) && AllDigits(a + b)
    ensures Number(a) <= Number(a + b)
    decreases |b|
  {
    if b == [] {
      assert a + b == a;
    } else {
      var init := b[..|b| - 1];
      assert (a + b)[..|a + b| - 1] == a + init;
      NumberGrows(a, init);
    }
  }

  /** A number is read exactly from one or more digits, after at most one plus sign, that make at most 255. */
  lemma ParseU8Exactly(s: seq<byte>)
    ensures var body := if s != [] && s[0] == 43 then s[1..] else s;
            ParseU8(s) == if body != [] && AllDigits(body) && Number(body) <= 255 then Some(Number(body)) else None
  {
    var body := if s != [] && s[0] == 43 then s[1..] else s;
    assert [] + body == body;
    DigitsAre(body, []);
  }

  /** Version 2 is announced exactly by settings whose first "v" is a number from 2 to 255. */
  lemma AnnouncesExactlyWhen(data: seq<byte>, i: nat)
    requires ValidUtf8(data) && FirstSets(Lines(data), [118], i)
    ensures var value := SplitOnce(Lines(data)[i]).value.1;
            var body := if value != [] && value[0] == 43 then value[1..] else value;
            AnnouncesV2(data) <==> body != [] && AllDigits(body) && 2 <= Number(body) <= 255
  {
    hide SplitOnce, Lines, ValidUtf8, ParseU8;
    FirstSettingCounts(Lines(data), KEY_V);
    ParseU8Exactly(SplitOnce(Lines(data)[i]).value.1);
  }

  lemma TwoIsTwo()
    ensures ParseU8(TWO) == Some(2)
  {
    assert TWO[1..] == [];
    assert Digits(TWO, 0) == Digits([], 2);
  }
}

/** Agreeing on a padding scheme: the server's SETTINGS branch against the client's update branch. */
module PaddingNegotiation {
  import opened Bytes
  import opened AnytlsSettings

  const MAX_FRAME: nat := 0xFFFF

  /**
   The foreign parts: what the padding factory makes of a text (its digest, or a refusal), the
   plain digest of a text, the client's further conditions on a plan, and the built-in scheme.
   */
  datatype Foreign = Foreign(factory: seq<byte> -> Option<seq<byte>>, md5: seq<byte> -> seq<byte>,
                             planOk: seq<byte> -> bool, defaultScheme: seq<byte>, defaultMd5: seq<byte>)

  function SchemeText(x: Foreign, lines: seq<seq<byte>>): (r: seq<byte>) {
    if lines == [] then x.defaultScheme else Join(lines)
  }

  /** The digest the server compares with. */
  function ServerMd5(x: Foreign, lines: seq<seq<byte>>): (r: seq<byte>) {
    if lines == [] then x.defaultMd5
    else
      var text := SchemeText(x, lines);
      match x.factory(text)
      case Some(digest) => digest
      case None => x.md5(text)
  }

  /** The client's digest after building its state from scheme lines, if it accepts them. */
  function ClientMd5(x: Foreign, lines: seq<seq<byte>>): (r: Option<seq<byte>>) {
    var text := SchemeText(x, lines);
    if x.planOk(text) then x.factory(text) else None
  }

  /** The update the server sends in answer to a client's settings, if any. */
  function UpdateFor(x: Foreign, serverLines: seq<seq<byte>>, settings: seq<byte>): (r: Option<seq<byte>>) {
    if SettingsValue(settings, KEY_MD5) != Some(ServerMd5(x, serverLines)) then Some(SchemeText(x, serverLines)) else None
  }

  /** The client's digest after an update frame; a text it cannot use leaves the old one. */
  function AfterUpdate(x: Foreign, digest: seq<byte>, update: seq<byte>): (r: seq<byte>) {
    if !ValidUtf8(update) then digest
    else
      match ClientMd5(x, Lines(update))
      case Some(updated) => updated
      case None => digest
  }

  /** One connection: the client announces its digest and applies the update, if the server sends one that fits a frame. */
  function AfterConnection(x: Foreign, serverLines: seq<seq<byte>>, digest: seq<byte>): (r: seq<byte>) {
    match UpdateFor(x, serverLines, ClientSettings(digest))
    case Some(update) => if |update| <= MAX_FRAME then AfterUpdate(x, digest, update) else digest
    case None => digest
  }

  predicate Digest(s: seq<byte>) {
    ValidUtf8(s) && LF !in s
  }

  /** The client rebuilds the very text the server sent exactly when splitting and joining it loses nothing. */
  lemma ClientRebuildsText(x: Foreign, text: seq<byte>)
    requires x.defaultScheme != []
    ensures SchemeText(x, Lines(text)) == text <==> Faithful(text)
  {
    if text != [] {
      LinesNotEmpty(text);
      JoinOfLines(text);
    }
  }

  /** Scheme lines without line breaks whose last is not empty make such a text. */
  lemma CleanSchemeIsFaithful(x: Foreign, lines: seq<seq<byte>>)
    requires lines != [] && Clean(lines)
    ensures Faithful(SchemeText(x, lines))
  {
    LinesOfJoin(lines);
    JoinNotEmpty(lines);
    JoinOfLines(Join(lines));
  }

  lemma {:induction false} JoinNotEmpty(lines: seq<seq<byte>>)
    requires lines != [] && lines[|lines| - 1] != []
    ensures Join(lines) != []
  {}

  /** The client's digest after `n` connections. */
  function AfterConnections(x: Foreign, serverLines: seq<seq<byte>>, digest: seq<byte>, n: nat): (r: seq<byte>) {
    if n == 0 then digest else AfterConnection(x, serverLines, AfterConnections(x, serverLines, digest, n - 1))
  }

  /** The built-in scheme is a text, and its digest is the one the program has built in. */
  ghost predicate DefaultIsOne(x: Foreign) {
    x.defaultScheme != [] && ValidUtf8(x.defaultScheme) && x.factory(x.defaultScheme) == Some(x.defaultMd5)
  }

  ghost predicate Digests(x: Foreign) {
    forall text :: x.factory(text).Some? ==> Digest(x.factory(text).value)
  }

  lemma SchemeUtf8(x: Foreign, lines: seq<seq<byte>>)
    requires DefaultIsOne(x) && forall i :: 0 <= i < |lines| ==> ValidUtf8(lines[i])
    ensures ValidUtf8(SchemeText(x, lines))
  {
    hide ValidUtf8;
    JoinUtf8(lines);
  }

  /** One connection brings the client to the server's digest. */
  lemma OneConnectionSettles(x: Foreign, serverLines: seq<seq<byte>>, digest: seq<byte>)
    requires DefaultIsOne(x) && Digests(x) && Digest(digest)
    requires forall i :: 0 <= i < |serverLines| ==> ValidUtf8(serverLines[i])
    requires Faithful(SchemeText(x, serverLines)) && |SchemeText(x, serverLines)| <= MAX_FRAME
    requires x.planOk(SchemeText(x, serverLines)) && x.factory(SchemeText(x, serverLines)).Some?
    ensures AfterConnection(x, serverLines, digest) == ServerMd5(x, serverLines) && Digest(ServerMd5(x, serverLines))
    ensures UpdateFor(x, serverLines, ClientSettings(ServerMd5(x, serverLines))).None?
  {
    hide ValidUtf8, ClientSettings, Lines, Join, SettingsValue, Faithful;
    SchemeUtf8(x, serverLines);
    SettingsCarryDigest(digest);
    ClientRebuildsText(x, SchemeText(x, serverLines));
    SettingsCarryDigest(ServerMd5(x, serverLines));
  }

  /**
   Fixed point: whatever digest the client starts from, after any number of connections, at
   least one, to a server whose scheme it accepts, it announces the server's digest, and the server sends no
   further update.
   */
  lemma {:induction false} NegotiationSettles(x: Foreign, serverLines: seq<seq<byte>>, digest: seq<byte>, n: nat)
    requires DefaultIsOne(x) && Digests(x) && Digest(digest) && n > 0
    requires forall i :: 0 <= i < |serverLines| ==> ValidUtf8(serverLines[i])
    requires Faithful(SchemeText(x, serverLines)) && |SchemeText(x, serverLines)| <= MAX_FRAME
    requires x.planOk(SchemeText(x, serverLines)) && x.factory(SchemeText(x, serverLines)).Some?
    ensures AfterConnections(x, serverLines, digest, n) == ServerMd5(x, serverLines)
    ensures UpdateFor(x, serverLines, ClientSettings(AfterConnections(x, serverLines, digest, n))).None?
  {
    hide Digest, UpdateFor, AfterConnection, Faithful;
    var before := AfterConnections(x, serverLines, digest, n - 1);
    OneConnectionSettles(x, serverLines, digest);
    if n > 1 {
      NegotiationSettles(x, serverLines, digest, n - 1);
    }
    OneConnectionSettles(x, serverLines, before);
  }

  /**
   A scheme that the padding factory refuses is never adopted: the client keeps its digest for good, and
   is sent the scheme on every connection unless its digest happens to be the plain one of that text.
   */
  lemma {:induction false} RefusedSchemeNeverAdopted(x: Foreign, serverLines: seq<seq<byte>>, digest: seq<byte>, n: nat)
    requires serverLines != [] && x.factory(Join(serverLines)).None? && x.defaultScheme != [] && Digest(digest)
    requires Faithful(Join(serverLines))
    ensures AfterConnections(x, serverLines, digest, n) == digest
    ensures UpdateFor(x, serverLines, ClientSettings(digest)) ==
            if digest == x.md5(Join(serverLines)) then None else Some(Join(serverLines))
  {
    hide ValidUtf8, ClientSettings, Lines, Join, SettingsValue, Faithful;
    ClientRebuildsText(x, Join(serverLines));
    SettingsCarryDigest(digest);
    if n > 0 {
      RefusedSchemeNeverAdopted(x, serverLines, digest, n - 1);
    }
  }

  /** No text but the server's own has the server's digest. */
  ghost predicate NoCollision(x: Foreign, serverLines: seq<seq<byte>>) {
    forall text :: text != SchemeText(x, serverLines) ==> x.factory(text) != Some(ServerMd5(x, serverLines))
  }

  lemma OneConnectionUnsettled(x: Foreign, serverLines: seq<seq<byte>>, digest: seq<byte>)
    requires !Faithful(SchemeText(x, serverLines)) && x.defaultScheme != [] && Digests(x) && Digest(digest)
    requires NoCollision(x, serverLines) && digest != ServerMd5(x, serverLines)
    ensures UpdateFor(x, serverLines, ClientSettings(digest)) == Some(SchemeText(x, serverLines))
    ensures var next := AfterConnection(x, serverLines, digest); Digest(next) && next != ServerMd5(x, serverLines)
  {
    hide ValidUtf8, ClientSettings, Lines, Join, SettingsValue, Faithful;
    var text := SchemeText(x, serverLines);
    ClientRebuildsText(x, text);
    assert x.factory(SchemeText(x, Lines(text))) != Some(ServerMd5(x, serverLines));
    SettingsCarryDigest(digest);
  }

  /** Otherwise it never settles, unless digests collide: on every connection the client is sent the same update again. */
  lemma {:induction false} UnfaithfulNeverSettles(x: Foreign, serverLines: seq<seq<byte>>, digest: seq<byte>, n: nat)
    requires !Faithful(SchemeText(x, serverLines)) && x.defaultScheme != [] && Digests(x) && Digest(digest)
    requires NoCollision(x, serverLines) && digest != ServerMd5(x, serverLines)
    ensures var held := AfterConnections(x, serverLines, digest, n);
            && Digest(held) && held != ServerMd5(x, serverLines)
            && UpdateFor(x, serverLines, ClientSettings(held)) == Some(SchemeText(x, serverLines))
  {
    hide Digest, UpdateFor, AfterConnection, Faithful, NoCollision;
    if n > 0 {
      UnfaithfulNeverSettles(x, serverLines, digest, n - 1);
      OneConnectionUnsettled(x, serverLines, AfterConnections(x, serverLines, digest, n - 1));
    }
    OneConnectionUnsettled(x, serverLines, AfterConnections(x, serverLines, digest, n));
  }
}
