/**
  The two canonical files: the floor line (internal/config/verifyfloor.go) and the operator
  signature (internal/config/signature.go, signaturefile.go). A character stands for a byte.
 */
module Codecs {
  import opened Prelude
  import opened Text
  import opened Lines

  // ---------------------------------------------------------------- verify.floor

  datatype FloorLine = FloorLine(logID: string, version: nat)

  /** A floor the program can have: a ledger id, and a position that fits an int. */
  predicate IsFloor(f: FloorLine) {
    IsHex(f.logID, 32) && 1 <= f.version <= MAX_INT
  }

  function FloorBytes(f: FloorLine): string {
    f.logID + " " + Itoa(f.version) + "\n"
  }

  function ParseFloor(data: string): Result<FloorLine> {
    if '\r' in data then Err
    else if data == "" || data[|data| - 1] != '\n' then Err
    else
      var line := data[..|data| - 1];
      if '\n' in line then Err
      else
        var fields := Split(line, ' ');
        if |fields| != 2 then Err
        else if !IsHex(fields[0], 32) then Err
        else if !IsShortestDecimal(fields[1]) then Err
        else if Value(fields[1]) > MAX_INT then Err
        else Ok(FloorLine(fields[0], Value(fields[1])))
  }

  lemma FloorRoundTrip(f: FloorLine)
    requires IsFloor(f)
    ensures ParseFloor(FloorBytes(f)) == Ok(f)
  {
    var digits := Itoa(f.version);
    var data, line := FloorBytes(f), f.logID + " " + digits;
    ItoaIsShortest(f.version);
    assert data[..|data| - 1] == line;
    assert f.logID + " " + digits == f.logID + [' '] + digits;
    SplitCut(f.logID, ' ', digits);
    SplitOne(digits, ' ');
  }

  lemma FloorIsReprinted(data: string)
    requires ParseFloor(data).Ok?
    ensures IsFloor(ParseFloor(data).value) && FloorBytes(ParseFloor(data).value) == data
  {
    var line := data[..|data| - 1];
    var fields := Split(line, ' ');
    JoinSplit(line, ' ');
    ValueIsReprinted(fields[1]);
    assert Join(fields, ' ') == fields[0] + [' '] + fields[1];
    assert data == line + "\n";
  }

  /** Accepted exactly when it is the line of a floor, and then of one floor only. */
  lemma FloorIsCanonical(a: string, b: string)
    ensures ParseFloor(a).Ok? <==> exists f :: IsFloor(f) && a == FloorBytes(f)
    ensures ParseFloor(a).Ok? && ParseFloor(a) == ParseFloor(b) ==> a == b
  {
    if ParseFloor(a).Ok? { FloorIsReprinted(a); }
    if ParseFloor(b).Ok? { FloorIsReprinted(b); }
    forall f | IsFloor(f) && a == FloorBytes(f) ensures ParseFloor(a).Ok? { FloorRoundTrip(f); }
  }

  // ---------------------------------------------------------------- installed/<hex>.sig

  const FORMAT := "agenthof-config-signature/v1"

  /** A parsed signature file. `payload` is the signed six lines, verbatim. */
  datatype SignatureFile = SignatureFile(
    payload: string, hash: string, logID: string, version: nat, installedAt: string, keyID: string, sig: string)

  /** installed_at as the file admits it: a non-empty word. */
  predicate IsStamp(s: string) {
    s != "" && ' ' !in s && '\t' !in s && '\n' !in s && '\r' !in s
  }

  function PayloadLines(hash: string, logID: string, version: nat, at: string, keyID: string): seq<string> {
    [FORMAT, "hash: " + hash, "log_id: " + logID, "version: " + Itoa(version), "installed_at: " + at,
     "key_id: " + keyID]
  }

  /** The signed statement about one install; `at` is its time, already rendered in UTC. */
  function SignaturePayload(hash: string, logID: string, version: int, at: string, keyID: string): Result<string> {
    if !IsConfigHash(hash) || !IsHex(logID, 32) || version < 1 || !IsHex(keyID, 64) then Err
    else Ok(Join(PayloadLines(hash, logID, version, at, keyID), '\n') + "\n")
  }

  function SignatureFileBytes(payload: string, sig: string): string {
    payload + "signature: " + sig + "\n"
  }

  function ValueOfLine(line: string, prefix: string): Result<string> {
    if prefix <= line then Ok(line[|prefix|..]) else Err
  }

  /** isSig says whether a text is base64 of 64 bytes. */
  function ParseSignatureFile(data: string, isSig: string -> bool): Result<SignatureFile> {
    if '\r' in data then Err
    else if Split(data, '\n')[0] != FORMAT then Err
    else if data[|data| - 1] != '\n' then Err
    else
      var lines := Split(data[..|data| - 1], '\n');
      if |lines| != 7 then Err
      else ParseLines(lines, isSig)
  }

  function ParseLines(lines: seq<string>, isSig: string -> bool): Result<SignatureFile>
    requires |lines| == 7
  {
    var hash, logID := ValueOfLine(lines[1], "hash: "), ValueOfLine(lines[2], "log_id: ");
    var version, at := ValueOfLine(lines[3], "version: "), ValueOfLine(lines[4], "installed_at: ");
    var keyID, sig := ValueOfLine(lines[5], "key_id: "), ValueOfLine(lines[6], "signature: ");
    if hash.Err? || !IsConfigHash(hash.value) then Err
    else if logID.Err? || !IsHex(logID.value, 32) then Err
    else if version.Err? || !IsShortestDecimal(version.value) || Value(version.value) > MAX_INT then Err
    else if at.Err? || at.value == "" || ' ' in at.value || '\t' in at.value then Err
    else if keyID.Err? || !IsHex(keyID.value, 64) then Err
    else if sig.Err? || !isSig(sig.value) then Err
    else Ok(SignatureFile(Join(lines[..6], '\n') + "\n", hash.value, logID.value, Value(version.value), at.value,
                          keyID.value, sig.value))
  }

  /** The seven lines of a signature file. */
  function LinesOf(f: SignatureFile): seq<string> {
    PayloadLines(f.hash, f.logID, f.version, f.installedAt, f.keyID) + ["signature: " + f.sig]
  }

  /** A signature file the program can write. */
  predicate IsSignature(f: SignatureFile, isSig: string -> bool) {
    && IsConfigHash(f.hash) && IsHex(f.logID, 32) && 1 <= f.version <= MAX_INT && IsStamp(f.installedAt)
    && IsHex(f.keyID, 64)
    && isSig(f.sig) && '\n' !in f.sig && '\r' !in f.sig
    && SignaturePayload(f.hash, f.logID, f.version, f.installedAt, f.keyID) == Ok(f.payload)
  }

  /** Nothing but letters and digits is printed around the fields' values. */
  lemma LabelsAreClean(c: char)
    requires c == '\n' || c == '\r'
    ensures c !in FORMAT && c !in "hash: " && c !in "log_id: " && c !in "version: "
    ensures c !in "installed_at: " && c !in "key_id: " && c !in "signature: " && c !in HASH_PREFIX
  {
  }

  /** Every line of a signature file is free of line ends. */
  lemma LinesAreClean(f: SignatureFile, isSig: string -> bool, c: char)
    requires IsSignature(f, isSig) && (c == '\n' || c == '\r')
    ensures NoneHas(LinesOf(f), c)
  {
    LabelsAreClean(c);
    HashIsClean(f.hash, c);
    DigitsAreClean(f.logID, c);
    DigitsAreClean(f.keyID, c);
    ItoaIsShortest(f.version);
    DigitsAreClean(Itoa(f.version), c);
    LabelledClean(FORMAT, "hash: ", f.hash, "log_id: ", f.logID, "version: ", Itoa(f.version),
                  "installed_at: ", f.installedAt, "key_id: ", f.keyID, "signature: ", f.sig, c);
  }

  lemma HashIsClean(hash: string, c: char)
    requires IsConfigHash(hash) && c !in HASH_PREFIX && !IsLowerHex(c)
    ensures c !in hash
  {
    DigitsAreClean(hash[7..], c);
    assert hash == hash[..7] + hash[7..];
  }

  lemma LabelledClean(l0: string, l1: string, v1: string, l2: string, v2: string, l3: string, v3: string,
                      l4: string, v4: string, l5: string, v5: string, l6: string, v6: string, c: char)
    requires NoneHas([l0, l1, v1, l2, v2, l3, v3, l4, v4, l5, v5, l6, v6], c)
    ensures NoneHas([l0, l1 + v1, l2 + v2, l3 + v3, l4 + v4, l5 + v5] + [l6 + v6], c)
  {
    var all := [l0, l1, v1, l2, v2, l3, v3, l4, v4, l5, v5, l6, v6];
    assert forall i :: 0 <= i < 13 ==> c !in all[i];
    assert c !in all[0] && c !in all[1] && c !in all[2] && c !in all[3] && c !in all[4] && c !in all[5] && c !in all[6];
    assert c !in all[7] && c !in all[8] && c !in all[9] && c !in all[10] && c !in all[11] && c !in all[12];
  }

  lemma FileIsItsLines(f: SignatureFile, isSig: string -> bool)
    requires IsSignature(f, isSig)
    ensures SignatureFileBytes(f.payload, f.sig) ==
            Join(LinesOf(f), '\n') + "\n"
  {
    JoinLast(PayloadLines(f.hash, f.logID, f.version, f.installedAt, f.keyID), "signature: " + f.sig, '\n');
  }

  /** Parsing what the printer wrote returns every field. */
  lemma SignatureRoundTrip(f: SignatureFile, isSig: string -> bool)
    requires IsSignature(f, isSig)
    ensures ParseSignatureFile(SignatureFileBytes(f.payload, f.sig), isSig) == Ok(f)
  {
    var six := PayloadLines(f.hash, f.logID, f.version, f.installedAt, f.keyID);
    var lines, data := six + ["signature: " + f.sig], SignatureFileBytes(f.payload, f.sig);
    FileIsItsLines(f, isSig);
    assert data[..|data| - 1] == Join(lines, '\n');
    LinesAreClean(f, isSig, '\n');
    LinesAreClean(f, isSig, '\r');
    SplitJoin(lines, '\n');
    JoinHas(lines, '\n', '\r');
    FirstLine(lines);
    ItoaIsShortest(f.version);
    assert lines[..6] == six;
    LinesParse(f, isSig);
  }

  lemma FirstLine(lines: seq<string>)
    requires |lines| >= 2 && '\n' !in lines[0]
    ensures Split(Join(lines, '\n') + "\n", '\n')[0] == lines[0]
  {
    var rest := Join(lines[1..], '\n') + "\n";
    assert Join(lines, '\n') + "\n" == lines[0] + ['\n'] + rest;
    SplitCut(lines[0], '\n', rest);
  }

  lemma LinesParse(f: SignatureFile, isSig: string -> bool)
    requires IsSignature(f, isSig)
    ensures ParseLines(LinesOf(f), isSig) == Ok(f)
  {
    var six := PayloadLines(f.hash, f.logID, f.version, f.installedAt, f.keyID);
    var lines := six + ["signature: " + f.sig];
    ItoaIsShortest(f.version);
    assert lines[..6] == six;
    assert ValueOfLine(lines[1], "hash: ") == Ok(f.hash);
    assert ValueOfLine(lines[2], "log_id: ") == Ok(f.logID);
    assert ValueOfLine(lines[3], "version: ") == Ok(Itoa(f.version));
    assert ValueOfLine(lines[4], "installed_at: ") == Ok(f.installedAt);
    assert ValueOfLine(lines[5], "key_id: ") == Ok(f.keyID);
    assert ValueOfLine(lines[6], "signature: ") == Ok(f.sig);
  }

  /** Reprinting any accepted file gives the same bytes, and its payload is the canonical one of its fields. */
  lemma SignatureIsReprinted(data: string, isSig: string -> bool)
    requires ParseSignatureFile(data, isSig).Ok?
    ensures var f := ParseSignatureFile(data, isSig).value;
            IsSignature(f, isSig) && SignatureFileBytes(f.payload, f.sig) == data
  {
    var f := ParseSignatureFile(data, isSig).value;
    var body := data[..|data| - 1];
    var lines := Split(body, '\n');
    JoinSplit(body, '\n');
    assert data == body + "\n";
    FirstOfBody(data, body);
    LinesReprint(lines, isSig, f);
    CarriedClean(data, body, lines, '\r');
    FieldsClean(lines, f, isSig);
    BytesOfLines(lines, f.sig);
  }

  lemma BytesOfLines(lines: seq<string>, sig: string)
    requires |lines| == 7 && lines[6] == "signature: " + sig
    ensures SignatureFileBytes(Join(lines[..6], '\n') + "\n", sig) == Join(lines, '\n') + "\n"
  {
    assert lines == lines[..6] + [lines[6]];
    JoinLast(lines[..6], lines[6], '\n');
  }

  /** The first line of a file is the first line of the file without its last line end. */
  lemma FirstOfBody(data: string, body: string)
    requires data == body + "\n"
    ensures Split(data, '\n')[0] == Split(body, '\n')[0]
  {
    JoinSplit(body, '\n');
    var lines := Split(body, '\n');
    if |lines| == 1 {
      assert data == body + ['\n'] + "";
      SplitCut(body, '\n', "");
    } else {
      FirstLine(lines);
    }
  }

  lemma {:induction false} CarriedClean(data: string, body: string, lines: seq<string>, x: char)
    requires data == body + "\n" && x !in data && lines == Split(body, '\n') && x != '\n'
    ensures NoneHas(lines, x)
  {
    forall i | 0 <= i < |lines| ensures x !in lines[i] { PartOfSplit(body, '\n', i, x); }
  }

  lemma {:induction false} PartOfSplit(s: string, c: char, i: nat, x: char)
    requires i < |Split(s, c)| && x !in s
    ensures x !in Split(s, c)[i]
  {
    if s != "" {
      var rest := Split(s[1..], c);
      if s[0] == c {
        if i > 0 { PartOfSplit(s[1..], c, i - 1, x); }
      } else {
        PartOfSplit(s[1..], c, i, x);
      }
    }
  }

  /** The lines of an accepted file are the lines its fields print. */
  lemma LinesReprint(lines: seq<string>, isSig: string -> bool, f: SignatureFile)
    requires |lines| == 7 && lines[0] == FORMAT && ParseLines(lines, isSig) == Ok(f)
    ensures lines[..6] == PayloadLines(f.hash, f.logID, f.version, f.installedAt, f.keyID)
    ensures lines[6] == "signature: " + f.sig
    ensures f.version >= 1
  {
    var version := ValueOfLine(lines[3], "version: ").value;
    ValueIsReprinted(version);
    assert lines[1] == "hash: " + f.hash && lines[2] == "log_id: " + f.logID;
    assert lines[3] == "version: " + Itoa(f.version) && lines[4] == "installed_at: " + f.installedAt;
    assert lines[5] == "key_id: " + f.keyID;
  }

  lemma FieldsClean(lines: seq<string>, f: SignatureFile, isSig: string -> bool)
    requires |lines| == 7 && NoneHas(lines, '\n') && NoneHas(lines, '\r') && ParseLines(lines, isSig) == Ok(f)
    ensures IsStamp(f.installedAt) && '\n' !in f.sig && '\r' !in f.sig
  {
    var a, b := |"installed_at: "|, |"signature: "|;
    assert f.installedAt == lines[4][a..] && f.sig == lines[6][b..];
  }

  /** Two accepted files that carry the same fields are the same file. */
  lemma SignatureIsCanonical(a: string, b: string, isSig: string -> bool)
    requires ParseSignatureFile(a, isSig).Ok? && ParseSignatureFile(b, isSig).Ok?
    requires var f, g := ParseSignatureFile(a, isSig).value, ParseSignatureFile(b, isSig).value;
             f == g.(payload := f.payload)
    ensures a == b
  {
    SignatureIsReprinted(a, isSig);
    SignatureIsReprinted(b, isSig);
  }
}
