// The chunked reader of the admission file
// (integrations/pg-mdm/bounded_refresh_producer.py:116-126, 148-171).

module AdmissionReader {

  import opened Basics
  import opened SourceTable

  const LF: Byte := 10
  const CR: Byte := 13

  datatype LoadError =
    | InputTooLarge
    | LineTooLong(line: nat)
    | NotUtf8(line: nat)
    | TooManyAdmissions
    | InvalidRecord(line: nat)

  datatype Result<+T> = Ok(value: T) | Err(error: LoadError)

  /** The limits, and the decoding and parsing that this model leaves abstract. */
  datatype Format = Format(
    maxLineBytes: nat,
    maxInputBytes: nat,
    maxAdmissions: nat,
    decode: seq<Byte> -> Option<string>,
    blank: string -> bool,
    load: string -> Option<Admission>)

  // ---- Lines ----

  /** Length of the first line with its newline, or of everything when there is no newline. */
  function LineLength(bytes: seq<Byte>): (n: nat)
    ensures n <= |bytes| && (bytes != [] ==> n > 0)
    ensures forall k :: 0 <= k < n - 1 ==> bytes[k] != LF
    ensures n < |bytes| ==> bytes[n - 1] == LF
  {
    if bytes == [] then 0
    else if bytes[0] == LF then 1
    else 1 + LineLength(bytes[1..])
  }

  /** Plain splitting after every newline. */
  function Lines(bytes: seq<Byte>): seq<seq<Byte>> {
    if bytes == [] then []
    else [bytes[..LineLength(bytes)]] + Lines(bytes[LineLength(bytes)..])
  }

  function Concat(lines: seq<seq<Byte>>): seq<Byte> {
    if lines == [] then [] else lines[0] + Concat(lines[1..])
  }

  /** A newline stands nowhere but at the end of a line. */
  ghost predicate OneLine(line: seq<Byte>) {
    line != [] && forall k :: 0 <= k < |line| - 1 ==> line[k] != LF
  }

  /** All lines but the last are closed by a newline. */
  ghost predicate ProperLines(lines: seq<seq<Byte>>) {
    && (forall i :: 0 <= i < |lines| ==> OneLine(lines[i]))
    && (forall i :: 0 <= i < |lines| - 1 ==> lines[i][|lines[i]| - 1] == LF)
  }

  /** Putting a line before proper lines: it must be closed if others follow. */
  lemma ProperCons(first: seq<Byte>, rest: seq<seq<Byte>>)
    requires OneLine(first) && ProperLines(rest) && (rest != [] ==> first[|first| - 1] == LF)
    ensures ProperLines([first] + rest)
  {
    var lines := [first] + rest;
    forall i | 0 <= i < |lines| ensures OneLine(lines[i]) {
      if i > 0 { assert lines[i] == rest[i - 1]; }
    }
    forall i | 0 <= i < |lines| - 1 ensures lines[i][|lines[i]| - 1] == LF {
      if i > 0 { assert lines[i] == rest[i - 1]; }
    }
  }

  lemma FirstLine(bytes: seq<Byte>)
    requires bytes != []
    ensures var n := LineLength(bytes); OneLine(bytes[..n]) && (bytes[n..] != [] ==> bytes[..n][n - 1] == LF)
  {
  }

  /** Splitting loses nothing and splits at every newline. */
  lemma {:induction false} LinesPartition(bytes: seq<Byte>)
    ensures Concat(Lines(bytes)) == bytes && ProperLines(Lines(bytes))
    decreases |bytes|
  {
    if bytes != [] {
      var n := LineLength(bytes);
      LinesPartition(bytes[n..]);
      FirstLine(bytes);
      ProperCons(bytes[..n], Lines(bytes[n..]));
      ConcatCons(bytes[..n], Lines(bytes[n..]));
      assert bytes == bytes[..n] + bytes[n..];
    }
  }

  lemma ConcatCons(first: seq<Byte>, rest: seq<seq<Byte>>)
    ensures Concat([first] + rest) == first + Concat(rest)
  {
    assert ([first] + rest)[1..] == rest;
  }

  /** A line without its newline and then without one carriage return. */
  function Payload(raw: seq<Byte>): seq<Byte> {
    var payload := if raw != [] && raw[|raw| - 1] == LF then raw[..|raw| - 1] else raw;
    if payload != [] && payload[|payload| - 1] == CR then payload[..|payload| - 1] else payload
  }

  // ---- The reference: one whole line after another ----

  function LoadLine(f: Format, raw: seq<Byte>, number: nat, admissions: seq<Admission>): Result<seq<Admission>> {
    if |Payload(raw)| > f.maxLineBytes then Err(LineTooLong(number))
    else
      var text := f.decode(Payload(raw));
      if text.None? then Err(NotUtf8(number))
      else if f.blank(text.value) then Ok(admissions)
      else if |admissions| >= f.maxAdmissions then Err(TooManyAdmissions)
      else
        var admission := f.load(text.value);
        if admission.None? then Err(InvalidRecord(number)) else Ok(admissions + [admission.value])
  }

  /** total counts the bytes so far; of a line too long to accept, only its first maxLineBytes + 3 count. */
  function LoadLines(f: Format, lines: seq<seq<Byte>>, number: nat, total: nat,
                     admissions: seq<Admission>): Result<seq<Admission>>
    decreases |lines|, 0
  {
    if lines == [] then Ok(admissions)
    else
      var read := total + Min(|lines[0]|, f.maxLineBytes + 3);
      if read > f.maxInputBytes then Err(InputTooLarge)
      else LoadRest(f, LoadLine(f, lines[0], number + 1, admissions), lines[1..], number + 1, read)
  }

  /** After the line with this number: its error, or the lines that follow. */
  function LoadRest(f: Format, step: Result<seq<Admission>>, lines: seq<seq<Byte>>, number: nat,
                    total: nat): Result<seq<Admission>>
    decreases |lines|, 1
  {
    match step
    case Err(error) => Err(error)
    case Ok(admissions) => LoadLines(f, lines, number, total, admissions)
  }

  function LoadFile(f: Format, statSize: nat, bytes: seq<Byte>): Result<seq<Admission>> {
    if statSize > f.maxInputBytes then Err(InputTooLarge) else LoadLines(f, Lines(bytes), 0, 0, [])
  }

  // ---- The reader ----

  /** readline(limit): the first line, cut after limit bytes. */
  function ChunkLength(bytes: seq<Byte>, limit: nat): nat {
    Min(LineLength(bytes), limit)
  }

  /** Any piece of maxLineBytes + 3 bytes cut from a longer line is rejected, and so is the line. */
  lemma CutLinesAreTooLong(f: Format, bytes: seq<Byte>, number: nat, admissions: seq<Admission>)
    requires LineLength(bytes) > f.maxLineBytes + 3
    ensures LoadLine(f, bytes[..f.maxLineBytes + 3], number, admissions) == Err(LineTooLong(number))
    ensures LoadLine(f, bytes[..LineLength(bytes)], number, admissions) == Err(LineTooLong(number))
  {
    assert |Payload(bytes[..f.maxLineBytes + 3])| >= f.maxLineBytes + 2;
  }

  /** Reading one chunk of what is left advances the reference by one line, or rejects as it does. */
  lemma ChunkIsLine(f: Format, rest: seq<Byte>, number: nat, total: nat, admissions: seq<Admission>)
    requires rest != []
    ensures var n := ChunkLength(rest, f.maxLineBytes + 3);
            LoadLines(f, Lines(rest), number, total, admissions)
            == if total + n > f.maxInputBytes then Err(InputTooLarge)
               else LoadRest(f, LoadLine(f, rest[..n], number + 1, admissions), Lines(rest[n..]), number + 1, total + n)
  {
    var n, length := ChunkLength(rest, f.maxLineBytes + 3), LineLength(rest);
    FirstOfLines(f, rest[..length], Lines(rest[length..]), number, total, admissions);
    if length > f.maxLineBytes + 3 {
      CutLinesAreTooLong(f, rest, number + 1, admissions);
      RejectedLine(f, LineTooLong(number + 1), Lines(rest[length..]), Lines(rest[n..]), number + 1, total + n);
    }
  }

  lemma FirstOfLines(f: Format, line: seq<Byte>, tail: seq<seq<Byte>>, number: nat, total: nat,
                     admissions: seq<Admission>)
    ensures LoadLines(f, [line] + tail, number, total, admissions)
         == var read := total + Min(|line|, f.maxLineBytes + 3);
            if read > f.maxInputBytes then Err(InputTooLarge)
            else LoadRest(f, LoadLine(f, line, number + 1, admissions), tail, number + 1, read)
  {
    assert ([line] + tail)[1..] == tail;
  }

  lemma RejectedLine(f: Format, error: LoadError, a: seq<seq<Byte>>, b: seq<seq<Byte>>, number: nat, total: nat)
    ensures LoadRest(f, Err(error), a, number, total) == LoadRest(f, Err(error), b, number, total)
  {
  }

  /** Reading at most maxLineBytes + 3 bytes at a time gives what plain line splitting gives. */
  method LoadAdmissions(f: Format, statSize: nat, bytes: seq<Byte>) returns (r: Result<seq<Admission>>)
    ensures r == LoadFile(f, statSize, bytes)
  {
    if statSize > f.maxInputBytes {
      return Err(InputTooLarge);
    }
    var admissions: seq<Admission> := [];
    var rest := bytes;
    var inputBytes: nat, lineNumber: nat := 0, 0;
    ghost var reference := LoadFile(f, statSize, bytes);
    while rest != []
      invariant reference == LoadLines(f, Lines(rest), lineNumber, inputBytes, admissions)
      decreases |rest|
    {
      ChunkIsLine(f, rest, lineNumber, inputBytes, admissions);
      var n := ChunkLength(rest, f.maxLineBytes + 3);
      var chunk := rest[..n];
      rest := rest[n..];
      inputBytes := inputBytes + |chunk|;
      if inputBytes > f.maxInputBytes {
        return Err(InputTooLarge);
      }
      lineNumber := lineNumber + 1;
      match LoadLine(f, chunk, lineNumber, admissions) {
        case Err(error) => return Err(error);
        case Ok(next) => admissions := next;
      }
    }
    r := Ok(admissions);
  }

  // ---- What acceptance means ----

  ghost predicate LineAccepted(f: Format, raw: seq<Byte>) {
    && |Payload(raw)| <= f.maxLineBytes
    && f.decode(Payload(raw)).Some?
    && (f.blank(f.decode(Payload(raw)).value) || f.load(f.decode(Payload(raw)).value).Some?)
  }

  /** What an accepted line contributes: its admission, or nothing when it is blank. */
  function LineLoads(f: Format, raw: seq<Byte>): seq<Admission> {
    var text := f.decode(Payload(raw));
    if text.None? || f.blank(text.value) || f.load(text.value).None? then [] else [f.load(text.value).value]
  }

  function Loaded(f: Format, lines: seq<seq<Byte>>): seq<Admission> {
    if lines == [] then [] else LineLoads(f, lines[0]) + Loaded(f, lines[1..])
  }

  lemma LoadLineExact(f: Format, raw: seq<Byte>, number: nat, admissions: seq<Admission>)
    requires |admissions| <= f.maxAdmissions
    ensures LoadLine(f, raw, number, admissions).Ok?
       <==> LineAccepted(f, raw) && |admissions| + |LineLoads(f, raw)| <= f.maxAdmissions
    ensures LoadLine(f, raw, number, admissions).Ok? ==>
      LoadLine(f, raw, number, admissions).value == admissions + LineLoads(f, raw)
  {
    assert admissions + [] == admissions;
  }

  ghost predicate AllAccepted(f: Format, lines: seq<seq<Byte>>) {
    forall i :: 0 <= i < |lines| ==> LineAccepted(f, lines[i])
  }

  lemma AllAcceptedStep(f: Format, lines: seq<seq<Byte>>)
    requires lines != []
    ensures AllAccepted(f, lines) <==> LineAccepted(f, lines[0]) && AllAccepted(f, lines[1..])
  {
    if LineAccepted(f, lines[0]) && AllAccepted(f, lines[1..]) {
      forall i | 0 <= i < |lines| ensures LineAccepted(f, lines[i]) {
        if i > 0 { assert lines[i] == lines[1..][i - 1]; }
      }
    }
  }

  /** What accepting the remaining lines takes. */
  ghost predicate WithinLimits(f: Format, lines: seq<seq<Byte>>, total: nat, admitted: nat) {
    && AllAccepted(f, lines)
    && total + |Concat(lines)| <= f.maxInputBytes
    && admitted + |Loaded(f, lines)| <= f.maxAdmissions
  }

  lemma {:induction false} LoadLinesExact(f: Format, lines: seq<seq<Byte>>, number: nat, total: nat,
                                          admissions: seq<Admission>)
    requires |admissions| <= f.maxAdmissions && total <= f.maxInputBytes
    ensures LoadLines(f, lines, number, total, admissions).Ok? <==> WithinLimits(f, lines, total, |admissions|)
    ensures LoadLines(f, lines, number, total, admissions).Ok? ==>
      LoadLines(f, lines, number, total, admissions).value == admissions + Loaded(f, lines)
    decreases lines
  {
    if lines == [] {
      assert admissions + Loaded(f, lines) == admissions;
    } else {
      AllAcceptedStep(f, lines);
      LoadLineExact(f, lines[0], number + 1, admissions);
      var next := admissions + LineLoads(f, lines[0]);
      assert admissions + Loaded(f, lines) == next + Loaded(f, lines[1..]);
      if LineAccepted(f, lines[0]) {
        AcceptedLineIsShort(f, lines[0]);
        if total + |lines[0]| <= f.maxInputBytes && |next| <= f.maxAdmissions {
          LoadLinesExact(f, lines[1..], number + 1, total + |lines[0]|, next);
        }
      }
    }
  }

  lemma AcceptedLineIsShort(f: Format, raw: seq<Byte>)
    requires |Payload(raw)| <= f.maxLineBytes
    ensures |raw| <= f.maxLineBytes + 2
  {
  }

  /** The file is accepted exactly when every line and the totals are within their limits. */
  lemma AcceptsExactly(f: Format, statSize: nat, bytes: seq<Byte>)
    ensures LoadFile(f, statSize, bytes).Ok?
       <==> statSize <= f.maxInputBytes && |bytes| <= f.maxInputBytes
            && AllAccepted(f, Lines(bytes)) && |Loaded(f, Lines(bytes))| <= f.maxAdmissions
    ensures LoadFile(f, statSize, bytes).Ok? ==> LoadFile(f, statSize, bytes).value == Loaded(f, Lines(bytes))
  {
    LinesPartition(bytes);
    LoadLinesExact(f, Lines(bytes), 0, 0, []);
    assert [] + Loaded(f, Lines(bytes)) == Loaded(f, Lines(bytes));
  }

  // ---- The same without the reader's own functions ----

  /** The ends of a line that are not part of its text. */
  predicate IsEnding(ending: seq<Byte>) {
    ending == [] || ending == [LF] || ending == [CR] || ending == [CR, LF]
  }

  predicate EndsWith(raw: seq<Byte>, ending: seq<Byte>) {
    |ending| <= |raw| && raw[|raw| - |ending|..] == ending
  }

  /** payload is the line without the longest ending that it has. */
  ghost predicate IsPayload(raw: seq<Byte>, payload: seq<Byte>) {
    exists ending :: LongestEnding(raw, ending) && raw == payload + ending
  }

  ghost predicate LongestEnding(raw: seq<Byte>, ending: seq<Byte>) {
    && IsEnding(ending) && EndsWith(raw, ending)
    && forall other :: IsEnding(other) && EndsWith(raw, other) ==> |other| <= |ending|
  }

  lemma PayloadExact(raw: seq<Byte>, payload: seq<Byte>)
    ensures IsPayload(raw, payload) <==> payload == Payload(raw)
  {
    var ending := raw[|Payload(raw)|..];
    assert raw == Payload(raw) + ending;
    EndingIsLongest(raw, ending);
    if other :| LongestEnding(raw, other) && raw == payload + other {
      assert |other| == |ending|;
      assert payload == raw[..|raw| - |other|];
    }
  }

  lemma EndingIsLongest(raw: seq<Byte>, ending: seq<Byte>)
    requires raw == Payload(raw) + ending
    ensures LongestEnding(raw, ending)
  {
    var n := |raw|;
    assert ending == [] || ending == [raw[n - 1]] || ending == [raw[n - 2], raw[n - 1]];
    forall other | IsEnding(other) && EndsWith(raw, other) ensures |other| <= |ending| {
      NoLongerEnding(raw, other);
    }
  }

  lemma NoLongerEnding(raw: seq<Byte>, ending: seq<Byte>)
    requires IsEnding(ending) && EndsWith(raw, ending)
    ensures |ending| <= |raw| - |Payload(raw)|
  {
    var n := |raw|;
    assert forall k :: 0 <= k < |ending| ==> raw[n - |ending| + k] == ending[k];
    if n > 0 {
      PayloadLength(raw);
    }
  }

  lemma PayloadLength(raw: seq<Byte>)
    requires raw != []
    ensures var n := |raw|;
            |Payload(raw)| == if n > 1 && raw[n - 2] == CR && raw[n - 1] == LF then n - 2
                              else if raw[n - 1] == LF || raw[n - 1] == CR then n - 1 else n
  {
  }

  /** A text is read the same with any of the endings. */
  lemma EndingsDoNotMatter(text: seq<Byte>)
    requires text != [] ==> text[|text| - 1] != LF && text[|text| - 1] != CR
    ensures Payload(text) == Payload(text + [LF]) == Payload(text + [CR]) == Payload(text + [CR, LF]) == text
  {
    assert (text + [LF])[..|text|] == text && (text + [CR])[..|text|] == text;
    assert (text + [CR, LF])[..|text| + 1] == text + [CR];
  }

  /** The text of a line, no longer than the limit. */
  ghost predicate ReadsAs(f: Format, raw: seq<Byte>, text: string) {
    exists payload :: IsPayload(raw, payload) && |payload| <= f.maxLineBytes && f.decode(payload) == Some(text)
  }

  predicate Usable(f: Format, text: string) {
    f.blank(text) || f.load(text).Some?
  }

  /** The admissions of the texts that are not blank, in order. */
  function Admitted(f: Format, texts: seq<string>): seq<Admission> {
    if texts == [] then []
    else
      (if !f.blank(texts[0]) && f.load(texts[0]).Some? then [f.load(texts[0]).value] else [])
      + Admitted(f, texts[1..])
  }

  /** The file falls into lines, each of which reads as a usable text. */
  ghost predicate ReadsThrough(f: Format, bytes: seq<Byte>, lines: seq<seq<Byte>>, texts: seq<string>) {
    && Concat(lines) == bytes && ProperLines(lines) && |texts| == |lines|
    && forall i :: 0 <= i < |lines| ==> ReadsAs(f, lines[i], texts[i]) && Usable(f, texts[i])
  }

  /** There is one way to cut bytes into lines. */
  lemma {:induction false} LinesAreUnique(lines: seq<seq<Byte>>, bytes: seq<Byte>)
    requires Concat(lines) == bytes && ProperLines(lines)
    ensures lines == Lines(bytes)
    decreases |lines|
  {
    if lines != [] {
      var first, rest := lines[0], lines[1..];
      assert OneLine(first);
      assert bytes == first + Concat(rest);
      FirstLineLength(first, Concat(rest));
      if rest != [] {
        assert first[|first| - 1] == LF;
      }
      assert LineLength(bytes) == |first| && bytes[..|first|] == first && bytes[|first|..] == Concat(rest);
      forall i | 0 <= i < |rest| ensures OneLine(rest[i]) && (i < |rest| - 1 ==> rest[i][|rest[i]| - 1] == LF) {
        assert rest[i] == lines[i + 1] && OneLine(lines[i + 1]);
      }
      LinesAreUnique(rest, Concat(rest));
    }
  }

  lemma {:induction false} FirstLineLength(first: seq<Byte>, rest: seq<Byte>)
    requires OneLine(first) && (rest != [] ==> first[|first| - 1] == LF)
    ensures LineLength(first + rest) == |first|
    decreases |first|
  {
    var bytes := first + rest;
    if |first| > 1 {
      assert bytes[1..] == first[1..] + rest && first[0] != LF;
      FirstLineLength(first[1..], rest);
    } else if rest == [] && first[0] != LF {
      assert bytes[1..] == [];
    }
  }

  lemma ReadsAsText(f: Format, raw: seq<Byte>, text: string)
    ensures ReadsAs(f, raw, text) <==> |Payload(raw)| <= f.maxLineBytes && f.decode(Payload(raw)) == Some(text)
  {
    PayloadExact(raw, Payload(raw));
    if payload :| IsPayload(raw, payload) && |payload| <= f.maxLineBytes && f.decode(payload) == Some(text) {
      PayloadExact(raw, payload);
    }
  }

  lemma {:induction false} AdmittedIsLoaded(f: Format, lines: seq<seq<Byte>>, texts: seq<string>)
    requires |texts| == |lines| && forall i :: 0 <= i < |lines| ==> ReadsAs(f, lines[i], texts[i])
    ensures Admitted(f, texts) == Loaded(f, lines)
    decreases |lines|
  {
    if lines != [] {
      ReadsAsText(f, lines[0], texts[0]);
      AdmittedIsLoaded(f, lines[1..], texts[1..]);
    }
  }

  function Texts(f: Format, lines: seq<seq<Byte>>): (texts: seq<string>)
    ensures |texts| == |lines|
  {
    seq(|lines|, i requires 0 <= i < |lines| =>
      var text := f.decode(Payload(lines[i])); if text.Some? then text.value else "")
  }

  lemma AcceptedReadsThrough(f: Format, bytes: seq<Byte>)
    requires AllAccepted(f, Lines(bytes))
    ensures ReadsThrough(f, bytes, Lines(bytes), Texts(f, Lines(bytes)))
  {
    var lines, texts := Lines(bytes), Texts(f, Lines(bytes));
    LinesPartition(bytes);
    forall i | 0 <= i < |lines| ensures ReadsAs(f, lines[i], texts[i]) && Usable(f, texts[i]) {
      assert LineAccepted(f, lines[i]);
      ReadsAsText(f, lines[i], texts[i]);
    }
  }

  /** A file gives these admissions exactly when it falls into lines that read as texts with these admissions, and
      its size and their number are within the limits. */
  lemma AcceptsTexts(f: Format, statSize: nat, bytes: seq<Byte>, admissions: seq<Admission>)
    ensures LoadFile(f, statSize, bytes) == Ok(admissions)
       <==> && statSize <= f.maxInputBytes && |bytes| <= f.maxInputBytes && |admissions| <= f.maxAdmissions
            && exists lines, texts :: ReadsThrough(f, bytes, lines, texts) && Admitted(f, texts) == admissions
  {
    AcceptsExactly(f, statSize, bytes);
    if AllAccepted(f, Lines(bytes)) {
      AcceptedReadsThrough(f, bytes);
      AdmittedIsLoaded(f, Lines(bytes), Texts(f, Lines(bytes)));
    }
    if lines, texts :| ReadsThrough(f, bytes, lines, texts) && Admitted(f, texts) == admissions {
      LinesAreUnique(lines, bytes);
      AdmittedIsLoaded(f, lines, texts);
      forall i | 0 <= i < |lines| ensures LineAccepted(f, lines[i]) {
        ReadsAsText(f, lines[i], texts[i]);
        assert Usable(f, texts[i]);
      }
    }
  }

  /** What is wrong with a line that follows so many bytes and admissions. */
  ghost predicate Offends(f: Format, raw: seq<Byte>, number: nat, total: nat, admitted: nat, error: LoadError) {
    exists payload :: IsPayload(raw, payload) && Breaks(f, |raw|, payload, number, total, admitted, error)
  }

  predicate Breaks(f: Format, length: nat, payload: seq<Byte>, number: nat, total: nat, admitted: nat,
                   error: LoadError) {
    var read := total + if length <= f.maxLineBytes + 3 then length else f.maxLineBytes + 3;
    if read > f.maxInputBytes then error == InputTooLarge
    else if |payload| > f.maxLineBytes then error == LineTooLong(number)
    else if f.decode(payload) == None then error == NotUtf8(number)
    else
      && !f.blank(f.decode(payload).value)
      && if admitted >= f.maxAdmissions then error == TooManyAdmissions
         else f.load(f.decode(payload).value) == None && error == InvalidRecord(number)
  }

  /** Line i is the first which breaks a limit or does not read; lines are numbered from 1. */
  ghost predicate FirstOffence(f: Format, lines: seq<seq<Byte>>, i: nat, number: nat, total: nat, admitted: nat,
                               error: LoadError)
    requires i < |lines|
  {
    && WithinLimits(f, lines[..i], total, admitted)
    && Offends(f, lines[i], number + i + 1, total + |Concat(lines[..i])|, admitted + |Loaded(f, lines[..i])|, error)
  }

  /** The error is that of the first offending line. */
  lemma {:induction false} RejectsFirstOffence(f: Format, lines: seq<seq<Byte>>, number: nat, total: nat,
                                               admissions: seq<Admission>, error: LoadError)
    returns (i: nat)
    requires |admissions| <= f.maxAdmissions && total <= f.maxInputBytes
    requires LoadLines(f, lines, number, total, admissions) == Err(error)
    ensures i < |lines| && FirstOffence(f, lines, i, number, total, |admissions|, error)
    decreases lines
  {
    var first, rest := lines[0], lines[1..];
    assert lines == [first] + rest;
    if Stops(f, first, number + 1, total, admissions, error) {
      OffendingLine(f, first, number + 1, total, admissions, error);
      i := 0;
      OffenceNow(f, first, rest, number, total, |admissions|, error);
    } else {
      GoesOn(f, first, rest, number, total, admissions, error);
      var next := admissions + LineLoads(f, first);
      var k := RejectsFirstOffence(f, rest, number + 1, total + |first|, next, error);
      OffenceLater(f, first, rest, k, number, total, |admissions|, error);
      i := k + 1;
    }
  }

  lemma GoesOn(f: Format, first: seq<Byte>, rest: seq<seq<Byte>>, number: nat, total: nat,
               admissions: seq<Admission>, error: LoadError)
    requires |admissions| <= f.maxAdmissions && total <= f.maxInputBytes
    requires LoadLines(f, [first] + rest, number, total, admissions) == Err(error)
    requires !Stops(f, first, number + 1, total, admissions, error)
    ensures LineAccepted(f, first) && total + |first| <= f.maxInputBytes
    ensures var next := admissions + LineLoads(f, first);
            && |next| <= f.maxAdmissions
            && LoadLines(f, rest, number + 1, total + |first|, next) == Err(error)
  {
    FirstOfLines(f, first, rest, number, total, admissions);
    LoadLineExact(f, first, number + 1, admissions);
    AcceptedLineIsShort(f, first);
  }

  predicate Stops(f: Format, raw: seq<Byte>, number: nat, total: nat, admissions: seq<Admission>, error: LoadError) {
    if total + Min(|raw|, f.maxLineBytes + 3) > f.maxInputBytes then error == InputTooLarge
    else LoadLine(f, raw, number, admissions) == Err(error)
  }

  lemma OffendingLine(f: Format, raw: seq<Byte>, number: nat, total: nat, admissions: seq<Admission>,
                      error: LoadError)
    requires Stops(f, raw, number, total, admissions, error)
    ensures Offends(f, raw, number, total, |admissions|, error)
  {
    PayloadExact(raw, Payload(raw));
  }

  lemma OffenceNow(f: Format, first: seq<Byte>, rest: seq<seq<Byte>>, number: nat, total: nat, admitted: nat,
                   error: LoadError)
    requires total <= f.maxInputBytes && admitted <= f.maxAdmissions
    requires Offends(f, first, number + 1, total, admitted, error)
    ensures FirstOffence(f, [first] + rest, 0, number, total, admitted, error)
  {
    assert ([first] + rest)[..0] == [];
  }

  lemma OffenceLater(f: Format, first: seq<Byte>, rest: seq<seq<Byte>>, k: nat, number: nat, total: nat,
                     admitted: nat, error: LoadError)
    requires LineAccepted(f, first) && k < |rest|
    requires FirstOffence(f, rest, k, number + 1, total + |first|, admitted + |LineLoads(f, first)|, error)
    ensures FirstOffence(f, [first] + rest, k + 1, number, total, admitted, error)
  {
    var before := rest[..k];
    assert ([first] + rest)[..k + 1] == [first] + before;
    assert ([first] + rest)[k + 1] == rest[k];
    MoreBefore(f, first, before, total, admitted);
  }

  lemma MoreBefore(f: Format, first: seq<Byte>, before: seq<seq<Byte>>, total: nat, admitted: nat)
    requires LineAccepted(f, first)
    requires WithinLimits(f, before, total + |first|, admitted + |LineLoads(f, first)|)
    ensures WithinLimits(f, [first] + before, total, admitted)
    ensures |Concat([first] + before)| == |first| + |Concat(before)|
    ensures |Loaded(f, [first] + before)| == |LineLoads(f, first)| + |Loaded(f, before)|
  {
    ConcatCons(first, before);
    LoadedCons(f, first, before);
    assert ([first] + before)[1..] == before;
    AllAcceptedStep(f, [first] + before);
  }

  lemma LoadedCons(f: Format, first: seq<Byte>, rest: seq<seq<Byte>>)
    ensures Loaded(f, [first] + rest) == LineLoads(f, first) + Loaded(f, rest)
  {
    assert ([first] + rest)[1..] == rest;
  }
}
