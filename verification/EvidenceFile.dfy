/** The qualification evidence file: seventeen `key=value` lines in a fixed order,
    each ended by a carriage return and a line feed. The writer prints a record;
    the reader walks a cursor over the text. The main result is that the reader
    accepts exactly what the writer produces, and nothing else. */
module EvidenceFile {
  import opened EvidenceText
  import opened EvidenceNames
  import opened Options

  // ---- Text ----

  const CRLF := "\r\n"
  const MAX_FILE := 65536
  const MAX_LINE := 1024

  lemma PlainJoin(a: string, b: string)
    requires Plain(a) && Plain(b)
    ensures Plain(a + b)
  {
  }

  function Joined(lines: seq<string>): (text: string)
    ensures lines != [] ==> |text| >= 2
  {
    if lines == [] then "" else lines[0] + CRLF + Joined(lines[1..])
  }

  ghost predicate Lines(lines: seq<string>) {
    forall i :: 0 <= i < |lines| ==> 0 < |lines[i]| <= MAX_LINE && Plain(lines[i])
  }

  /** What the file check accepts: at least one line, none of them blank or too
      long, ordinary ASCII inside them, and the size limit. */
  ghost predicate Clean(text: string) {
    |text| <= MAX_FILE && exists lines :: lines != [] && Lines(lines) && text == Joined(lines)
  }

  /** The loop of the file check, on the rest of the text, `length` characters
      into a line. */
  predicate Scans(text: string, length: nat)
    decreases |text|
  {
    if text == "" then true
    else if text[0] as int == 0 || text[0] as int > 127 || text[0] == '\n' then false
    else if text[0] == '\r' then
      |text| > 1 && text[1] == '\n' && length != 0 && Scans(text[2..], 0)
    else
      length + 1 <= MAX_LINE && Scans(text[1..], length + 1)
  }

  predicate Ended(text: string) {
    |text| >= 2 && text[|text| - 2] == '\r' && text[|text| - 1] == '\n'
  }

  /** One whole line passes, and the loop goes on behind it. */
  lemma {:induction false} LineScans(line: string, rest: string, length: nat)
    requires Plain(line) && 0 < length + |line| <= MAX_LINE
    ensures Scans(line + CRLF + rest, length) == Scans(rest, 0)
    decreases |line|
  {
    var text := line + CRLF + rest;
    if line == "" {
      assert text[2..] == rest;
    } else {
      assert line[0] in line;
      assert text[1..] == line[1..] + CRLF + rest;
      forall ch | ch in line[1..]
        ensures Ordinary(ch)
      {
        assert ch in line;
      }
      LineScans(line[1..], rest, length + 1);
    }
  }

  lemma {:induction false} LinesScan(lines: seq<string>)
    requires Lines(lines)
    ensures Scans(Joined(lines), 0)
    ensures lines != [] ==> Ended(Joined(lines))
    decreases |lines|
  {
    if lines != [] {
      var rest := Joined(lines[1..]);
      assert Lines(lines[1..]) by {
        assert forall i :: 0 <= i < |lines| - 1 ==> lines[1..][i] == lines[i + 1];
      }
      LinesScan(lines[1..]);
      LineScans(lines[0], rest, 0);
    }
  }

  lemma EmptyIsPlain()
    ensures Plain("") && Lines([])
  {
  }

  lemma LinesCons(line: string, lines: seq<string>)
    requires 0 < |line| <= MAX_LINE && Plain(line) && Lines(lines)
    ensures Lines([line] + lines) && Joined([line] + lines) == line + CRLF + Joined(lines)
  {
    assert ([line] + lines)[1..] == lines;
  }

  /** A text the loop passes, ending in a line break, is a list of lines. */
  lemma {:induction false} ScannedLines(text: string, line: string) returns (lines: seq<string>)
    requires Scans(text, |line|) && Ended(text) && Plain(line) && |line| <= MAX_LINE
    ensures lines != [] && Lines(lines) && line + text == Joined(lines)
    decreases |text|
  {
    if text[0] == '\r' {
      var rest := text[2..];
      assert text == CRLF + rest;
      hide Plain, Lines;
      var more: seq<string> := [];
      if rest != "" {
        assert Plain("") by { EmptyIsPlain(); }
        more := ScannedLines(rest, "");
        assert "" + rest == rest;
      } else {
        EmptyIsPlain();
      }
      lines := [line] + more;
      LinesCons(line, more);
      assert line + text == line + CRLF + rest;
    } else {
      var rest := text[1..];
      assert text == [text[0]] + rest;
      assert line + text == line + [text[0]] + rest;
      lines := ScannedLines(rest, line + [text[0]]);
    }
  }

  lemma CleanIsScanned(text: string)
    ensures Clean(text) <==> |text| <= MAX_FILE && Ended(text) && Scans(text, 0)
  {
    if Clean(text) {
      var lines :| lines != [] && Lines(lines) && text == Joined(lines);
      LinesScan(lines);
    }
    if |text| <= MAX_FILE && Ended(text) && Scans(text, 0) {
      var lines := ScannedLines(text, "");
      assert "" + text == text;
    }
  }

  // ---- One field ----

  /** The first line break, or the length when there is none. */
  function Break(text: string): (n: nat)
    ensures n <= |text|
    ensures n < |text| ==> n + 2 <= |text| && text[n..n + 2] == CRLF
  {
    if |text| < 2 then |text|
    else if text[0] == '\r' && text[1] == '\n' then 0
    else
      var n := Break(text[1..]);
      assert n < |text| - 1 ==> text[1..][n..n + 2] == text[n + 1..n + 3];
      1 + n
  }

  function Line(key: string, value: string): string {
    key + "=" + value + CRLF
  }

  /** One field at the front of the text: its value and what follows its line. */
  function FieldAt(text: string, key: string): (r: Option<(string, string)>)
    ensures r.Some? ==> |r.value.1| < |text|
  {
    var n := Break(text);
    if n == |text| then None
    else
      var line := text[..n];
      if |line| <= |key| || line[..|key|] != key || line[|key|] != '=' then None
      else Some((line[|key| + 1..], text[n + 2..]))
  }

  lemma FieldSound(text: string, key: string)
    requires FieldAt(text, key).Some?
    ensures text == Line(key, FieldAt(text, key).value.0) + FieldAt(text, key).value.1
  {
    var n := Break(text);
    var line := text[..n];
    assert line == key + "=" + line[|key| + 1..];
    assert text == line + text[n..n + 2] + text[n + 2..];
  }

  lemma {:induction false} BreakAfter(line: string, rest: string)
    requires Plain(line)
    ensures Break(line + CRLF + rest) == |line|
    decreases |line|
  {
    var text := line + CRLF + rest;
    if line != "" {
      assert line[0] in line && text[0] == line[0];
      assert text[1..] == line[1..] + CRLF + rest;
      forall ch | ch in line[1..]
        ensures Ordinary(ch)
      {
        assert ch in line;
      }
      BreakAfter(line[1..], rest);
    }
  }

  lemma FieldComplete(key: string, value: string, rest: string)
    requires Plain(key) && Plain(value)
    ensures FieldAt(Line(key, value) + rest, key) == Some((value, rest))
  {
    var line := key + "=" + value;
    assert Plain(line) by {
      PlainJoin(key, "=");
      PlainJoin(key + "=", value);
    }
    var text := Line(key, value) + rest;
    assert text == line + CRLF + rest;
    BreakAfter(line, rest);
    assert text[..|line|] == line && text[|line| + 2..] == rest;
    assert line[..|key|] == key && line[|key| + 1..] == value;
  }

  // ---- All fields ----

  function Written(keys: seq<string>, values: seq<string>): string
    requires |keys| == |values|
  {
    if keys == [] then "" else Line(keys[0], values[0]) + Written(keys[1..], values[1..])
  }

  function ReadFields(text: string, keys: seq<string>): Option<seq<string>>
    decreases |keys|
  {
    if keys == [] then
      if text == "" then Some([]) else None
    else
      match FieldAt(text, keys[0])
      case None => None
      case Some((value, rest)) =>
        match ReadFields(rest, keys[1..])
        case None => None
        case Some(values) => Some([value] + values)
  }

  lemma {:induction false} FieldsSound(text: string, keys: seq<string>)
    requires ReadFields(text, keys).Some?
    ensures |ReadFields(text, keys).value| == |keys|
    ensures text == Written(keys, ReadFields(text, keys).value)
    decreases |keys|
  {
    if keys != [] {
      var (value, rest) := FieldAt(text, keys[0]).value;
      FieldSound(text, keys[0]);
      FieldsSound(rest, keys[1..]);
      var values := ReadFields(text, keys).value;
      assert values[1..] == ReadFields(rest, keys[1..]).value;
    }
  }

  lemma {:induction false} FieldsComplete(keys: seq<string>, values: seq<string>)
    requires |keys| == |values| && AllPlain(keys) && AllPlain(values)
    ensures ReadFields(Written(keys, values), keys) == Some(values)
    decreases |keys|
  {
    if keys != [] {
      assert AllPlain(keys[1..]) && AllPlain(values[1..]);
      FieldsComplete(keys[1..], values[1..]);
      FieldComplete(keys[0], values[0], Written(keys[1..], values[1..]));
      assert values == [values[0]] + values[1..];
    } else {
      assert values == [];
    }
  }

  // ---- Evidence ----

  datatype Evidence = Evidence(
    manifestDigest: Digest,
    candidateDigest: Digest,
    controlDigest: Digest,
    candidateFileSize: Word64,
    candidateCoffTimestamp: Word32,
    candidateSizeOfImage: Word32,
    candidateFileVersion: Version,
    candidateProductVersion: Version,
    childExitStatus: Word32)

  /** A successful qualification, the only kind that is written. */
  predicate Success(e: Evidence) {
    e.candidateFileSize != 0 && e.candidateSizeOfImage != 0 && e.childExitStatus == 0
  }

  function Values(e: Evidence): (v: seq<string>)
    ensures |v| == |KEYS|
  {
    ["1",
     MODE,
     DigestText(e.manifestDigest),
     DigestText(e.candidateDigest),
     Show(e.candidateFileSize),
     MACHINE,
     HEX_PREFIX + Hex(e.candidateCoffTimestamp, 8),
     Show(e.candidateSizeOfImage),
     VersionText(e.candidateFileVersion),
     VersionText(e.candidateProductVersion),
     EXPORT_1,
     EXPORT_2,
     POLICY,
     TRUST,
     LAYOUT,
     EXIT,
     DigestText(e.controlDigest)]
  }

  /** The file of a record. */
  function Text(e: Evidence): string {
    Written(KEYS, Values(e))
  }

  lemma {:induction false} HexIsPlain(value: nat, width: nat)
    ensures Plain(Hex(value, width))
    decreases width
  {
    if width > 0 {
      HexIsPlain(value / 16, width - 1);
    }
  }

  lemma {:induction false} DigestIsPlain(bytes: seq<Byte>)
    ensures Plain(DigestText(bytes))
    decreases |bytes|
  {
    if bytes != [] {
      DigestIsPlain(bytes[..|bytes| - 1]);
      HexIsPlain(bytes[|bytes| - 1], 2);
    }
  }

  lemma ShowWord(n: Word64)
    ensures Plain(Show(n)) && |Show(n)| <= 20
  {
    assert Pow10(10) == 10_000_000_000;
    assert Pow10(20) == 100_000_000_000_000_000_000;
    ShowIsShort(n, 20);
  }

  lemma VersionIsPlain(v: Version)
    ensures Plain(VersionText(v)) && |VersionText(v)| <= 83
  {
    ShowWord(v.major);
    ShowWord(v.minor);
    ShowWord(v.build);
    ShowWord(v.revision);
  }

  lemma WordIsPlain(n: Word32)
    ensures Plain(HEX_PREFIX + Hex(n, 8))
  {
    HexIsPlain(n, 8);
  }

  lemma ValuesArePlain(e: Evidence)
    ensures AllPlain(Values(e))
    ensures forall i :: 0 <= i < |KEYS| ==> |Values(e)[i]| <= 100
  {
    hide Plain, Show, VersionText, DigestText, Hex;
    ConstantsArePlain();
    OutcomesArePlain();
    PolicyIsPlain();
    DigestIsPlain(e.manifestDigest);
    DigestIsPlain(e.candidateDigest);
    DigestIsPlain(e.controlDigest);
    ShowWord(e.candidateFileSize);
    ShowWord(e.candidateSizeOfImage);
    WordIsPlain(e.candidateCoffTimestamp);
    VersionIsPlain(e.candidateFileVersion);
    VersionIsPlain(e.candidateProductVersion);
  }

  /** Which record a text is, told by its fields. */
  lemma TextByFields(text: string, e: Evidence)
    ensures text == Text(e) <==> ReadFields(text, KEYS) == Some(Values(e))
  {
    hide ReadFields, Values, Written;
    KeysArePlain();
    ValuesArePlain(e);
    FieldsComplete(KEYS, Values(e));
    if ReadFields(text, KEYS) == Some(Values(e)) {
      FieldsSound(text, KEYS);
    }
  }

  // ---- The file passes its check ----

  function FieldLines(keys: seq<string>, values: seq<string>): (lines: seq<string>)
    requires |keys| == |values|
    ensures |lines| == |keys|
  {
    seq(|keys|, i requires 0 <= i < |keys| => keys[i] + "=" + values[i])
  }

  lemma {:induction false} WrittenIsJoined(keys: seq<string>, values: seq<string>)
    requires |keys| == |values|
    ensures Written(keys, values) == Joined(FieldLines(keys, values))
    decreases |keys|
  {
    if keys != [] {
      WrittenIsJoined(keys[1..], values[1..]);
      assert FieldLines(keys, values)[1..] == FieldLines(keys[1..], values[1..]);
    }
  }

  lemma {:induction false} JoinedIsShort(lines: seq<string>)
    requires Lines(lines)
    ensures |Joined(lines)| <= (MAX_LINE + 2) * |lines|
    decreases |lines|
  {
    if lines != [] {
      assert Lines(lines[1..]);
      JoinedIsShort(lines[1..]);
    }
  }

  /** A written record always passes the file check, so for this reader the
      check refuses nothing that the fields would have let through. */
  lemma TextIsClean(e: Evidence)
    ensures Clean(Text(e))
  {
    hide Plain, Values, Joined, Written;
    var lines := FieldLines(KEYS, Values(e));
    KeysArePlain();
    ValuesArePlain(e);
    forall i | 0 <= i < |lines|
      ensures 0 < |lines[i]| <= MAX_LINE && Plain(lines[i])
    {
      EqualsIsPlain();
      PlainJoin(KEYS[i], "=");
      PlainJoin(KEYS[i] + "=", Values(e)[i]);
    }
    WrittenIsJoined(KEYS, Values(e));
    JoinedIsShort(lines);
  }

  // ---- Writer ----

  lemma {:induction false} WrittenNext(keys: seq<string>, values: seq<string>, k: nat)
    requires |keys| == |values| && k < |keys|
    ensures Written(keys[..k + 1], values[..k + 1])
         == Written(keys[..k], values[..k]) + Line(keys[k], values[k])
    decreases k
  {
    var ks, vs := keys[..k + 1], values[..k + 1];
    if k == 0 {
      assert ks[1..] == [] && vs[1..] == [];
      assert keys[..0] == [] && values[..0] == [];
      assert Written([], []) == "";
    } else {
      WrittenNext(keys[1..], values[1..], k - 1);
      assert ks[1..] == keys[1..][..k] && vs[1..] == values[1..][..k];
      assert keys[..k][1..] == keys[1..][..k - 1] && values[..k][1..] == values[1..][..k - 1];
    }
  }

  lemma WrittenLines(keys: seq<string>, v: seq<string>)
    requires |keys| == |v| == 17
    ensures Written(keys, v)
         == Line(keys[0], v[0]) + Line(keys[1], v[1]) + Line(keys[2], v[2]) + Line(keys[3], v[3])
          + Line(keys[4], v[4]) + Line(keys[5], v[5]) + Line(keys[6], v[6]) + Line(keys[7], v[7])
          + Line(keys[8], v[8]) + Line(keys[9], v[9]) + Line(keys[10], v[10]) + Line(keys[11], v[11])
          + Line(keys[12], v[12]) + Line(keys[13], v[13]) + Line(keys[14], v[14]) + Line(keys[15], v[15])
          + Line(keys[16], v[16])
  {
    hide Line;
    assert keys[..0] == [] && v[..0] == [] && Written([], []) == "";
    hide Written;
    forall k | 0 <= k < 17
      ensures Written(keys[..k + 1], v[..k + 1]) == Written(keys[..k], v[..k]) + Line(keys[k], v[k])
    {
      WrittenNext(keys, v, k);
    }
    assert "" + Line(keys[0], v[0]) == Line(keys[0], v[0]);
    assert keys[..17] == keys && v[..17] == v;
  }

  /** Only a successful qualification is written. */
  method Format(e: Evidence) returns (text: Option<string>)
    ensures text == if Success(e) then Some(Text(e)) else None
  {
    hide Written, Line, DigestText, Hex, Show;
    if e.candidateFileSize == 0 || e.candidateSizeOfImage == 0 || e.childExitStatus != 0 {
      return None;
    }
    var manifest := FormatDigest(e.manifestDigest);
    var candidate := FormatDigest(e.candidateDigest);
    var timestamp := HexText(e.candidateCoffTimestamp);
    var control := FormatDigest(e.controlDigest);
    WrittenLines(KEYS, Values(e));
    return Some(
      Line("schema", "1")
      + Line("mode", MODE)
      + Line("manifest_sha256", manifest)
      + Line("candidate_sha256", candidate)
      + Line("candidate_file_size", Show(e.candidateFileSize))
      + Line("candidate_machine", MACHINE)
      + Line("candidate_coff_timestamp", timestamp)
      + Line("candidate_size_of_image", Show(e.candidateSizeOfImage))
      + Line("candidate_file_version_quad", VersionText(e.candidateFileVersion))
      + Line("candidate_product_version_quad", VersionText(e.candidateProductVersion))
      + Line("candidate_export_1", EXPORT_1)
      + Line("candidate_export_2", EXPORT_2)
      + Line("candidate_signature_policy", POLICY)
      + Line("winverifytrust_status", TRUST)
      + Line("abi_layout", LAYOUT)
      + Line("child_exit_status", EXIT)
      + Line("control_digest_sha256", control));
  }

  // ---- Reader ----

  class Cursor {
    const text: string
    var position: nat

    ghost predicate Valid()
      reads this`position
    {
      position <= |text|
    }

    ghost function Rest(): string
      requires Valid()
      reads this`position
    {
      text[position..]
    }

    constructor (bytes: string)
      ensures Valid() && text == bytes && Rest() == bytes
    {
      text := bytes;
      position := 0;
      new;
      assert text[0..] == text;
    }

    method Validate() returns (ok: bool)
      ensures ok <==> Clean(text)
    {
      hide Clean;
      CleanIsScanned(text);
      if |text| > MAX_FILE {
        return false;
      }
      if |text| < 2 || text[|text| - 2] != '\r' || text[|text| - 1] != '\n' {
        return false;
      }
      var length := 0;
      var i := 0;
      assert text[0..] == text;
      while i < |text|
        invariant 0 <= i <= |text|
        invariant Scans(text, 0) == Scans(text[i..], length)
      {
        var ch := text[i];
        if ch as int == 0 || ch as int > 127 {
          return false;
        }
        if ch == '\n' {
          return false;
        }
        if ch == '\r' {
          if i + 1 == |text| || text[i + 1] != '\n' {
            return false;
          }
          if length == 0 {
            return false;
          }
          assert text[i..][2..] == text[i + 2..];
          length := 0;
          i := i + 1;
        } else {
          length := length + 1;
          if length > MAX_LINE {
            return false;
          }
          assert text[i..][1..] == text[i + 1..];
        }
        i := i + 1;
      }
      return true;
    }

    method Take(key: string) returns (value: Option<string>)
      requires Valid()
      modifies this`position
      ensures Valid()
      ensures value.None? <==> FieldAt(old(Rest()), key).None?
      ensures value.Some? ==> FieldAt(old(Rest()), key) == Some((value.value, Rest()))
      ensures value.None? ==> position == old(position)
    {
      var end := position + Break(text[position..]);
      if end == |text| {
        return None;
      }
      var line := text[position..end];
      assert line == text[position..][..end - position];
      if |line| <= |key| || line[..|key|] != key || line[|key|] != '=' {
        return None;
      }
      assert text[position..][end - position + 2..] == text[end + 2..];
      position := end + 2;
      return Some(line[|key| + 1..]);
    }

    method Literal(key: string, wanted: string) returns (ok: bool)
      requires Valid()
      modifies this`position
      ensures Valid()
      ensures ok <==> FieldAt(old(Rest()), key).Some? && FieldAt(old(Rest()), key).value.0 == wanted
      ensures ok ==> FieldAt(old(Rest()), key) == Some((wanted, Rest()))
    {
      var value := Take(key);
      ok := value == Some(wanted);
    }

    method End() returns (ok: bool)
      requires Valid()
      ensures ok <==> Rest() == ""
    {
      ok := position == |text|;
    }
  }

  function Prepended(values: seq<string>, rest: Option<seq<string>>): Option<seq<string>> {
    if rest.None? then None else Some(values + rest.value)
  }

  /** The fields named by the first keys have been read, and `rest` is left. */
  ghost predicate Reading(text: string, taken: seq<string>, rest: string) {
    && |taken| <= |KEYS|
    && ReadFields(text, KEYS) == Prepended(taken, ReadFields(rest, KEYS[|taken|..]))
  }

  ghost predicate Refused(text: string) {
    forall e :: Success(e) ==> text != Text(e)
  }

  lemma ReadingStarts(text: string)
    ensures Reading(text, [], text)
  {
    hide ReadFields;
    assert KEYS[0..] == KEYS;
    if ReadFields(text, KEYS).Some? {
      assert [] + ReadFields(text, KEYS).value == ReadFields(text, KEYS).value;
    }
  }

  /** One field more of the first `k` of them. */
  lemma ReadStep(rest: string, keys: seq<string>, taken: seq<string>)
    requires |taken| < |keys|
    ensures FieldAt(rest, keys[|taken|]).None? ==> ReadFields(rest, keys[|taken|..]).None?
    ensures FieldAt(rest, keys[|taken|]).Some? ==>
      var (value, more) := FieldAt(rest, keys[|taken|]).value;
      Prepended(taken, ReadFields(rest, keys[|taken|..]))
      == Prepended(taken + [value], ReadFields(more, keys[|taken| + 1..]))
  {
    var left := keys[|taken|..];
    assert left[0] == keys[|taken|] && left[1..] == keys[|taken| + 1..];
    var field := FieldAt(rest, left[0]);
    if field.Some? && ReadFields(field.value.1, left[1..]).Some? {
      var more := ReadFields(field.value.1, left[1..]).value;
      assert taken + ([field.value.0] + more) == taken + [field.value.0] + more;
    }
  }

  lemma ReadingNext(text: string, taken: seq<string>, rest: string)
    requires Reading(text, taken, rest) && |taken| < |KEYS|
    ensures var field := FieldAt(rest, KEYS[|taken|]);
            if field.None? then Refused(text)
            else Reading(text, taken + [field.value.0], field.value.1)
  {
    hide FieldAt, ReadFields, Refused;
    ReadStep(rest, KEYS, taken);
    if FieldAt(rest, KEYS[|taken|]).None? {
      Unreadable(text);
    }
  }

  lemma Unreadable(text: string)
    requires ReadFields(text, KEYS).None?
    ensures Refused(text)
  {
    hide ReadFields, Values, Text;
    forall e
      ensures text != Text(e)
    {
      TextByFields(text, e);
    }
  }

  /** A value no record has, in the place of its field. */
  lemma Foreign(text: string, taken: seq<string>, rest: string, k: nat)
    requires Reading(text, taken, rest) && k < |taken|
    requires forall e :: Success(e) ==> Values(e)[k] != taken[k]
    ensures Refused(text)
  {
    hide ReadFields, Values, Text;
    forall e | Success(e)
      ensures text != Text(e)
    {
      TextByFields(text, e);
    }
  }

  /** All fields read and nothing behind them. */
  lemma ReadingEnds(text: string, taken: seq<string>, rest: string)
    requires Reading(text, taken, rest) && |taken| == |KEYS|
    ensures rest != "" ==> Refused(text)
    ensures rest == "" ==> ReadFields(text, KEYS) == Some(taken)
  {
    hide Refused;
    assert KEYS[|taken|..] == [];
    if rest == "" {
      assert taken + [] == taken;
    } else {
      Unreadable(text);
    }
  }

  method Next(cursor: Cursor, key: string, ghost taken: seq<string>)
    returns (value: Option<string>, ghost now: seq<string>)
    requires cursor.Valid() && Reading(cursor.text, taken, cursor.Rest())
    requires |taken| < |KEYS| && key == KEYS[|taken|]
    modifies cursor`position
    ensures cursor.Valid()
    ensures value.None? ==> Refused(cursor.text)
    ensures value.Some? ==> now == taken + [value.value] && Reading(cursor.text, now, cursor.Rest())
  {
    hide FieldAt, Reading, Refused;
    ReadingNext(cursor.text, taken, cursor.Rest());
    value := cursor.Take(key);
    now := if value.Some? then taken + [value.value] else taken;
  }

  method NextLiteral(cursor: Cursor, key: string, wanted: string, ghost taken: seq<string>)
    returns (ok: bool, ghost now: seq<string>)
    requires cursor.Valid() && Reading(cursor.text, taken, cursor.Rest())
    requires |taken| < |KEYS| && key == KEYS[|taken|]
    requires forall e :: Values(e)[|taken|] == wanted
    modifies cursor`position
    ensures cursor.Valid()
    ensures now == taken + [wanted]
    ensures !ok ==> Refused(cursor.text)
    ensures ok ==> Reading(cursor.text, now, cursor.Rest())
  {
    hide FieldAt, Reading, Refused;
    var rest := cursor.Rest();
    ReadingNext(cursor.text, taken, rest);
    ok := cursor.Literal(key, wanted);
    now := taken + [wanted];
    if !ok && FieldAt(rest, key).Some? {
      var (value, more) := FieldAt(rest, key).value;
      Foreign(cursor.text, taken + [value], more, |taken|);
    }
  }

  /** Where each value stands in the file. */
  lemma LiteralsAt(e: Evidence)
    ensures Values(e)[0] == "1" && Values(e)[1] == MODE && Values(e)[5] == MACHINE
    ensures Values(e)[10] == EXPORT_1 && Values(e)[11] == EXPORT_2 && Values(e)[12] == POLICY
    ensures Values(e)[13] == TRUST && Values(e)[14] == LAYOUT && Values(e)[15] == EXIT
  {
  }

  lemma DigestsAt(e: Evidence)
    ensures Values(e)[2] == DigestText(e.manifestDigest) && Values(e)[3] == DigestText(e.candidateDigest)
    ensures Values(e)[16] == DigestText(e.controlDigest)
  {
  }

  lemma ValuesAt(e: Evidence)
    ensures Values(e)[4] == Show(e.candidateFileSize) && Values(e)[7] == Show(e.candidateSizeOfImage)
    ensures Values(e)[6] == HEX_PREFIX + Hex(e.candidateCoffTimestamp, 8)
    ensures Values(e)[8] == VersionText(e.candidateFileVersion)
    ensures Values(e)[9] == VersionText(e.candidateProductVersion)
  {
  }

  lemma VersionTextInjective(v: Version, w: Version)
    requires VersionText(v) == VersionText(w)
    ensures v == w
  {
    hide ReadParts, VersionText;
    VersionTexts(VersionText(v));
    assert ReadParts(VersionText(v), 4) == Some(Quad(v));
    assert ReadParts(VersionText(w), 4) == Some(Quad(w));
    assert Quad(v)[0] == Quad(w)[0] && Quad(v)[1] == Quad(w)[1] && Quad(v)[2] == Quad(w)[2] && Quad(v)[3] == Quad(w)[3];
  }

  /** A file has one record. */
  lemma ValuesInjective(e: Evidence, f: Evidence)
    requires Success(e) && Success(f) && Values(e) == Values(f)
    ensures e == f
  {
    hide Values, DigestText, Show, Hex, VersionText, DecimalValue, HexRead;
    DigestsAt(e);
    DigestsAt(f);
    ValuesAt(e);
    ValuesAt(f);
    SameDigest(e.manifestDigest, f.manifestDigest);
    SameDigest(e.candidateDigest, f.candidateDigest);
    SameDigest(e.controlDigest, f.controlDigest);
    DecimalExact(Show(e.candidateFileSize), TWO_64 - 1, e.candidateFileSize);
    DecimalExact(Show(e.candidateFileSize), TWO_64 - 1, f.candidateFileSize);
    DecimalExact(Show(e.candidateSizeOfImage), TWO_64 - 1, e.candidateSizeOfImage);
    DecimalExact(Show(e.candidateSizeOfImage), TWO_64 - 1, f.candidateSizeOfImage);
    WordText(Values(e)[6], e.candidateCoffTimestamp);
    WordText(Values(e)[6], f.candidateCoffTimestamp);
    VersionTextInjective(e.candidateFileVersion, f.candidateFileVersion);
    VersionTextInjective(e.candidateProductVersion, f.candidateProductVersion);
  }

  method ReadDigest(cursor: Cursor, key: string, ghost taken: seq<string>, ghost field: Evidence -> Digest)
    returns (digest: Option<Digest>, ghost now: seq<string>)
    requires cursor.Valid() && Reading(cursor.text, taken, cursor.Rest())
    requires |taken| < |KEYS| && key == KEYS[|taken|]
    requires forall e :: Values(e)[|taken|] == DigestText(field(e))
    modifies cursor`position
    ensures cursor.Valid()
    ensures digest.None? ==> Refused(cursor.text)
    ensures digest.Some? ==> now == taken + [DigestText(digest.value)] && Reading(cursor.text, now, cursor.Rest())
  {
    hide Reading, Refused, DigestText, Values;
    var value;
    value, now := Next(cursor, key, taken);
    if value.None? {
      return None, now;
    }
    digest := ParseDigest(value.value);
    if digest.None? {
      Foreign(cursor.text, now, cursor.Rest(), |taken|);
    }
  }

  method ReadNumber(cursor: Cursor, key: string, maximum: Word64, ghost taken: seq<string>,
                    ghost field: Evidence -> Word64)
    returns (number: Option<Word64>, ghost now: seq<string>)
    requires cursor.Valid() && Reading(cursor.text, taken, cursor.Rest()) && maximum >= 9
    requires |taken| < |KEYS| && key == KEYS[|taken|]
    requires forall e :: Success(e) ==> Values(e)[|taken|] == Show(field(e)) && 0 < field(e) <= maximum
    modifies cursor`position
    ensures cursor.Valid()
    ensures number.None? ==> Refused(cursor.text)
    ensures number.Some? ==> 0 < number.value <= maximum
    ensures number.Some? ==> now == taken + [Show(number.value)] && Reading(cursor.text, now, cursor.Rest())
  {
    hide Reading, Refused, Show, Values, DecimalValue, Success;
    var value;
    value, now := Next(cursor, key, taken);
    if value.None? {
      return None, now;
    }
    number := Decimal(value.value, maximum);
    forall n: Word64
      ensures number == Some(n) <==> n <= maximum && value.value == Show(n)
    {
      DecimalExact(value.value, maximum, n);
    }
    if number.None? || number.value == 0 {
      forall e | Success(e)
        ensures Values(e)[|taken|] != now[|taken|]
      {
        assert number != Some(field(e));
      }
      Foreign(cursor.text, now, cursor.Rest(), |taken|);
      return None, now;
    }
  }

  method ReadQuad(cursor: Cursor, key: string, ghost taken: seq<string>, ghost field: Evidence -> Version)
    returns (quad: Option<Version>, ghost now: seq<string>)
    requires cursor.Valid() && Reading(cursor.text, taken, cursor.Rest())
    requires |taken| < |KEYS| && key == KEYS[|taken|]
    requires forall e :: Values(e)[|taken|] == VersionText(field(e))
    modifies cursor`position
    ensures cursor.Valid()
    ensures quad.None? ==> Refused(cursor.text)
    ensures quad.Some? ==> now == taken + [VersionText(quad.value)] && Reading(cursor.text, now, cursor.Rest())
  {
    hide Reading, Refused, VersionText, Values;
    var value;
    value, now := Next(cursor, key, taken);
    if value.None? {
      return None, now;
    }
    quad := ReadVersion(value.value);
    if quad.None? {
      Foreign(cursor.text, now, cursor.Rest(), |taken|);
    }
  }

  /** From the file size to the image size. */
  method ReadImage(cursor: Cursor, ghost taken: seq<string>)
    returns (ok: bool, fileSize: Word64, timestamp: Word32, imageSize: Word32, ghost now: seq<string>)
    requires cursor.Valid() && |taken| == 4 && Reading(cursor.text, taken, cursor.Rest())
    modifies cursor`position
    ensures cursor.Valid()
    ensures !ok ==> Refused(cursor.text)
    ensures ok ==> Reading(cursor.text, now, cursor.Rest()) && fileSize != 0 && imageSize != 0
    ensures ok ==>
      now == taken + [Show(fileSize)] + [MACHINE] + [HEX_PREFIX + Hex(timestamp, 8)] + [Show(imageSize)]
  {
    hide Reading, Refused, Values, Show, Hex;
    forall e
      ensures Values(e)[5] == MACHINE
    {
      LiteralsAt(e);
    }
    forall e
      ensures Values(e)[4] == Show(e.candidateFileSize) && Values(e)[7] == Show(e.candidateSizeOfImage)
      ensures Values(e)[6] == HEX_PREFIX + Hex(e.candidateCoffTimestamp, 8)
    {
      ValuesAt(e);
    }
    fileSize, timestamp, imageSize := 0, 0, 0;
    var number;
    number, now := ReadNumber(cursor, "candidate_file_size", TWO_64 - 1, taken, (e: Evidence) => e.candidateFileSize);
    if number.None? {
      return false, 0, 0, 0, now;
    }
    fileSize := number.value;
    ok, now := NextLiteral(cursor, "candidate_machine", MACHINE, now);
    if !ok {
      return;
    }
    ghost var before := now;
    var value;
    value, now := Next(cursor, "candidate_coff_timestamp", now);
    if value.None? {
      return false, fileSize, 0, 0, now;
    }
    var word := Hex32(value.value);
    if word.None? {
      Foreign(cursor.text, now, cursor.Rest(), 6);
      return false, fileSize, 0, 0, now;
    }
    timestamp := word.value;
    number, now := ReadNumber(cursor, "candidate_size_of_image", TWO_32 - 1, now, (e: Evidence) => e.candidateSizeOfImage);
    if number.None? {
      return false, fileSize, timestamp, 0, now;
    }
    imageSize := number.value;
    ok := true;
  }

  /** From the first export to the end of the file. */
  method ReadOutcome(cursor: Cursor, ghost taken: seq<string>)
    returns (control: Option<Digest>, ghost now: seq<string>)
    requires cursor.Valid() && |taken| == 10 && Reading(cursor.text, taken, cursor.Rest())
    modifies cursor`position
    ensures cursor.Valid()
    ensures control.None? ==> Refused(cursor.text)
    ensures control.Some? ==> ReadFields(cursor.text, KEYS) == Some(now)
    ensures control.Some? ==>
      now == taken + [EXPORT_1] + [EXPORT_2] + [POLICY] + [TRUST] + [LAYOUT] + [EXIT] + [DigestText(control.value)]
  {
    hide Reading, Refused, Values, DigestText, ReadFields;
    forall e
      ensures Values(e)[10] == EXPORT_1 && Values(e)[11] == EXPORT_2 && Values(e)[12] == POLICY
      ensures Values(e)[13] == TRUST && Values(e)[14] == LAYOUT && Values(e)[15] == EXIT
    {
      LiteralsAt(e);
    }
    forall e
      ensures Values(e)[16] == DigestText(e.controlDigest)
    {
      DigestsAt(e);
    }
    control := None;
    var ok;
    ok, now := NextLiteral(cursor, "candidate_export_1", EXPORT_1, taken);
    if !ok {
      return;
    }
    ok, now := NextLiteral(cursor, "candidate_export_2", EXPORT_2, now);
    if !ok {
      return;
    }
    ok, now := NextLiteral(cursor, "candidate_signature_policy", POLICY, now);
    if !ok {
      return;
    }
    ok, now := NextLiteral(cursor, "winverifytrust_status", TRUST, now);
    if !ok {
      return;
    }
    ok, now := NextLiteral(cursor, "abi_layout", LAYOUT, now);
    if !ok {
      return;
    }
    ok, now := NextLiteral(cursor, "child_exit_status", EXIT, now);
    if !ok {
      return;
    }
    control, now := ReadDigest(cursor, "control_digest_sha256", now, (e: Evidence) => e.controlDigest);
    if control.None? {
      return;
    }
    ReadingEnds(cursor.text, now, cursor.Rest());
    ok := cursor.End();
    if !ok {
      return None, now;
    }
  }

  /** All the fields of a record, so the record. */
  lemma Complete(text: string, e: Evidence)
    requires Success(e) && ReadFields(text, KEYS) == Some(Values(e))
    ensures forall f :: e == f <==> Success(f) && text == Text(f)
  {
    hide ReadFields, Values, Text, Success;
    forall f
      ensures e == f <==> Success(f) && text == Text(f)
    {
      TextByFields(text, f);
      if Success(f) && text == Text(f) {
        ValuesInjective(e, f);
      }
    }
  }

  method ReadSchema(cursor: Cursor, ghost taken: seq<string>) returns (ok: bool, ghost now: seq<string>)
    requires cursor.Valid() && |taken| == 0 && Reading(cursor.text, taken, cursor.Rest())
    modifies cursor`position
    ensures cursor.Valid()
    ensures !ok ==> Refused(cursor.text)
    ensures ok ==> Reading(cursor.text, now, cursor.Rest()) && now == taken + ["1"] + [MODE]
  {
    hide Reading, Refused, Values;
    forall e
      ensures Values(e)[0] == "1" && Values(e)[1] == MODE
    {
      LiteralsAt(e);
    }
    ok, now := NextLiteral(cursor, "schema", "1", taken);
    if !ok {
      return;
    }
    ok, now := NextLiteral(cursor, "mode", MODE, now);
  }

  method ReadDigests(cursor: Cursor, ghost taken: seq<string>)
    returns (digests: Option<(Digest, Digest)>, ghost now: seq<string>)
    requires cursor.Valid() && |taken| == 2 && Reading(cursor.text, taken, cursor.Rest())
    modifies cursor`position
    ensures cursor.Valid()
    ensures digests.None? ==> Refused(cursor.text)
    ensures digests.Some? ==>
      && Reading(cursor.text, now, cursor.Rest())
      && now == taken + [DigestText(digests.value.0)] + [DigestText(digests.value.1)]
  {
    hide Reading, Refused, Values, DigestText;
    forall e
      ensures Values(e)[2] == DigestText(e.manifestDigest) && Values(e)[3] == DigestText(e.candidateDigest)
    {
      DigestsAt(e);
    }
    var manifest, candidate;
    manifest, now := ReadDigest(cursor, "manifest_sha256", taken, (e: Evidence) => e.manifestDigest);
    if manifest.None? {
      return None, now;
    }
    candidate, now := ReadDigest(cursor, "candidate_sha256", now, (e: Evidence) => e.candidateDigest);
    if candidate.None? {
      return None, now;
    }
    digests := Some((manifest.value, candidate.value));
  }

  /** The two version quads. */
  method ReadVersions(cursor: Cursor, ghost taken: seq<string>)
    returns (ok: bool, file: Version, product: Version, ghost now: seq<string>)
    requires cursor.Valid() && |taken| == 8 && Reading(cursor.text, taken, cursor.Rest())
    modifies cursor`position
    ensures cursor.Valid()
    ensures !ok ==> Refused(cursor.text)
    ensures ok ==> Reading(cursor.text, now, cursor.Rest())
    ensures ok ==> now == taken + [VersionText(file)] + [VersionText(product)]
  {
    hide Reading, Refused, Values, VersionText;
    forall e
      ensures Values(e)[8] == VersionText(e.candidateFileVersion)
      ensures Values(e)[9] == VersionText(e.candidateProductVersion)
    {
      ValuesAt(e);
    }
    file, product := Version(0, 0, 0, 0), Version(0, 0, 0, 0);
    var quad;
    quad, now := ReadQuad(cursor, "candidate_file_version_quad", taken, (e: Evidence) => e.candidateFileVersion);
    if quad.None? {
      return false, file, product, now;
    }
    file := quad.value;
    quad, now := ReadQuad(cursor, "candidate_product_version_quad", now, (e: Evidence) => e.candidateProductVersion);
    if quad.None? {
      return false, file, product, now;
    }
    product := quad.value;
    ok := true;
  }

  /** The values of a record, put together from the four stretches read. */
  lemma Assembled(e: Evidence, all: seq<string>, header: seq<string>, image: seq<string>, versions: seq<string>)
    requires header == [] + ["1"] + [MODE] + [DigestText(e.manifestDigest)] + [DigestText(e.candidateDigest)]
    requires image == header + [Show(e.candidateFileSize)] + [MACHINE]
                   + [HEX_PREFIX + Hex(e.candidateCoffTimestamp, 8)] + [Show(e.candidateSizeOfImage)]
    requires versions == image + [VersionText(e.candidateFileVersion)] + [VersionText(e.candidateProductVersion)]
    requires all == versions + [EXPORT_1] + [EXPORT_2] + [POLICY] + [TRUST] + [LAYOUT] + [EXIT]
                  + [DigestText(e.controlDigest)]
    ensures all == Values(e)
  {
    hide DigestText, Hex, Show, VersionText;
  }

  method ReadRecord(cursor: Cursor) returns (r: Option<Evidence>)
    requires cursor.Valid() && cursor.Rest() == cursor.text
    modifies cursor`position
    ensures r.None? ==> Refused(cursor.text)
    ensures r.Some? ==> Success(r.value) && ReadFields(cursor.text, KEYS) == Some(Values(r.value))
  {
    hide Reading, Refused, DigestText, Hex, Show, VersionText, ReadFields, Values;
    ReadingStarts(cursor.text);
    var ok, schema := ReadSchema(cursor, []);
    if !ok {
      return None;
    }
    var digests, header := ReadDigests(cursor, schema);
    if digests.None? {
      return None;
    }
    var (manifest, candidate) := digests.value;
    ghost var image, versions, taken;
    var fileSize, timestamp, imageSize;
    ok, fileSize, timestamp, imageSize, image := ReadImage(cursor, header);
    if !ok {
      return None;
    }
    var file, product;
    ok, file, product, versions := ReadVersions(cursor, image);
    if !ok {
      return None;
    }
    var control;
    control, taken := ReadOutcome(cursor, versions);
    if control.None? {
      return None;
    }
    var e := Evidence(manifest, candidate, control.value, fileSize, timestamp, imageSize, file, product, 0);
    assert taken == Values(e) by {
      Assembled(e, taken, header, image, versions);
    }
    return Some(e);
  }

  /** The reader accepts a text exactly when it is the file of a successful
      qualification, and then yields that record. */
  method Parse(text: string) returns (r: Option<Evidence>)
    ensures forall e :: r == Some(e) <==> Success(e) && text == Text(e)
  {
    hide Values, Text, Clean, ReadFields, Success;
    var cursor := new Cursor(text);
    var ok := cursor.Validate();
    if !ok {
      forall e
        ensures text != Text(e)
      {
        TextIsClean(e);
      }
      return None;
    }
    r := ReadRecord(cursor);
    if r.Some? {
      Complete(text, r.value);
    }
  }

  /** Parsing what was formatted gives the record back. */
  method ParseFormatted(e: Evidence) returns (r: Option<Evidence>)
    ensures r == if Success(e) then Some(e) else None
  {
    hide Text;
    var text := Format(e);
    if text.None? {
      return None;
    }
    r := Parse(text.value);
    assert r == Some(e) <==> Success(e) && text.value == Text(e);
  }

  /** Formatting what was parsed gives the text back. */
  method FormatParsed(text: string) returns (r: Option<string>)
    ensures r == Some(text) <==> exists e :: Success(e) && text == Text(e)
    ensures r.Some? ==> r.value == text
  {
    hide Text, Success;
    var e := Parse(text);
    if e.None? {
      forall f
        ensures !(Success(f) && text == Text(f))
      {
        assert e != Some(f);
      }
      return None;
    }
    assert Success(e.value) && text == Text(e.value);
    r := Format(e.value);
  }
}
