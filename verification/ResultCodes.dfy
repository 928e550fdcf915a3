/** The final result codes of the modem and the in-place parser that recognises them. */
module ResultCodes {
  import opened CStrings
  import opened Options

  datatype Status =
    | Ok | Connect | Ring | NoCarrier | Error | NoDialtone | Busy | NoAnswer | Proceeding
    | Timeout | Invalid

  /** The codes a modem can send: all but the two the driver makes up itself. */
  predicate Recognised(c: Status) {
    c != Timeout && c != Invalid
  }

  /** The verbose form of a result code. */
  function Name(c: Status): (s: string)
    requires Recognised(c)
    ensures 2 <= |s| && '\r' !in s && '\n' !in s && NUL !in s
  {
    match c
    case Ok => "OK"
    case Connect => "CONNECT"
    case Ring => "RING"
    case NoCarrier => "NO CARRIER"
    case Error => "ERROR"
    case NoDialtone => "NO DIALTONE"
    case Busy => "BUSY"
    case NoAnswer => "NO ANSWER"
    case Proceeding => "PROCEEDING"
  }

  const CRLF: string := "\r\n"

  predicate CrlfAt(s: string, k: int) {
    0 <= k && k + 2 <= |s| && s[k] == '\r' && s[k + 1] == '\n'
  }

  /**
   * The string ends with the line "name CRLF".  The line starts right behind the two characters that are
   * skipped unconditionally, or right behind a CRLF that those two do not touch.
   */
  predicate EndsWithLine(s: string, name: string) {
    var k := |s| - 2 - |name|;
    && (k == 2 || (k >= 4 && CrlfAt(s, k - 2)))
    && s[k..|s| - 2] == name
    && CrlfAt(s, |s| - 2)
  }

  const CODES: seq<Status> := [Ok, Connect, Ring, NoCarrier, Error, NoDialtone, Busy, NoAnswer, Proceeding]

  function FirstFitting(s: string, codes: seq<Status>): Status
    requires forall d :: d in codes ==> Recognised(d)
  {
    if codes == [] then Invalid
    else if EndsWithLine(s, Name(codes[0])) then codes[0]
    else FirstFitting(s, codes[1..])
  }

  lemma {:induction false} FirstFittingFits(s: string, codes: seq<Status>)
    requires forall d :: d in codes ==> Recognised(d)
    ensures var c := FirstFitting(s, codes);
            && c != Timeout
            && (c != Invalid ==> EndsWithLine(s, Name(c)))
            && (c == Invalid ==> forall d :: d in codes ==> !EndsWithLine(s, Name(d)))
  {
    if codes != [] {
      assert codes[0] in codes;
      assert forall d :: d in codes ==> d == codes[0] || d in codes[1..];
      FirstFittingFits(s, codes[1..]);
    }
  }

  /** What a received string means: the code whose name is its final line, or nothing at all. */
  function Classify(s: string): Status {
    FirstFitting(s, CODES)
  }

  /** The first CRLF at or behind `from`: what strstr reports on a C string. */
  function FindCrlf(s: string, from: nat): (r: Option<nat>)
    ensures r.Some? ==> from <= r.value && CrlfAt(s, r.value)
    ensures forall k :: from <= k && (r.None? || k < r.value) ==> !CrlfAt(s, k)
    decreases |s| - from
  {
    if from + 2 > |s| then None
    else if CrlfAt(s, from) then Some(from)
    else FindCrlf(s, from + 1)
  }

  /** The comparison chain: the code with this very name, if there is one. */
  function Lookup(text: string): (c: Status)
    ensures c != Timeout
    ensures c != Invalid ==> text == Name(c)
    ensures c == Invalid ==> forall d :: Recognised(d) ==> text != Name(d)
  {
    if text == "OK" then Ok
    else if text == "CONNECT" then Connect
    else if text == "RING" then Ring
    else if text == "NO CARRIER" then NoCarrier
    else if text == "ERROR" then Error
    else if text == "NO DIALTONE" then NoDialtone
    else if text == "BUSY" then Busy
    else if text == "NO ANSWER" then NoAnswer
    else if text == "PROCEEDING" then Proceeding
    else Invalid
  }

  /** Where the scan may stop: behind the last CRLF that does not touch the first two characters. */
  ghost predicate LastLineStart(body: string, needle: nat) {
    && 2 <= needle <= |body|
    && (needle == 2 || (needle >= 4 && CrlfAt(body, needle - 2)))
    && forall k :: needle <= k ==> !CrlfAt(body, k)
  }

  /** At the stopping point the remaining text is a name exactly when the whole string ends with that line. */
  lemma LineFound(s: string, needle: nat, name: string)
    requires |s| >= 4 && CrlfAt(s, |s| - 2)
    requires LastLineStart(s[..|s| - 2], needle)
    requires '\n' !in name
    ensures s[needle..|s| - 2] == name <==> EndsWithLine(s, name)
  {
    var body := s[..|s| - 2];
    var k := |body| - |name|;
    if EndsWithLine(s, name) {
      assert forall i :: k <= i < |body| ==> s[i] == name[i - k];
      assert k >= 4 ==> CrlfAt(body, k - 2);
    }
  }

  /** Looking up the text at the stopping point classifies the whole string. */
  lemma ClassifyByLookup(s: string, needle: nat, c: Status)
    requires |s| >= 2 && CrlfAt(s, |s| - 2)
    requires if |s| < 4 then c == Invalid
             else LastLineStart(s[..|s| - 2], needle) && c == Lookup(s[needle..|s| - 2])
    ensures Classify(s) == c
  {
    ClassifyIsLine(s);
    if |s| >= 4 {
      forall d | Recognised(d) ensures s[needle..|s| - 2] == Name(d) <==> EndsWithLine(s, Name(d)) {
        LineFound(s, needle, Name(d));
      }
      if Recognised(c) {
        ClassifyExactly(s, c);
      }
    }
  }

  /** Without a line break at the end there is no final line. */
  lemma NoLine(s: string)
    requires !CrlfAt(s, |s| - 2)
    ensures Classify(s) == Invalid
  {
    ClassifyIsLine(s);
  }

  /** The buffer holds s, a string ending in CRLF, with the first character of that CRLF overwritten. */
  ghost predicate CutFrom(s: string, data: seq<char>) {
    && 2 <= |s| < |data| && NUL !in s && CrlfAt(s, |s| - 2) && data[|s|] == NUL
    && data[..|s|] == s[|s| - 2 := NUL]
  }

  /** What strstr and strcmp see from `needle` on, once the trailing CRLF of s is cut off. */
  lemma RestOfCut(s: string, data: seq<char>, needle: nat)
    requires CutFrom(s, data)
    requires if |s| < 4 then needle == 2 else 2 <= needle <= |s| - 2
    ensures |s| < 4 ==> |CStr(data[needle..])| <= 1
    ensures |s| >= 4 ==> CStr(data[needle..]) == s[needle..|s| - 2]
  {
    var rest, n := data[needle..], if |s| < 4 then |s| - needle else |s| - 2 - needle;
    assert forall i :: 0 <= i < |s| ==> data[i] == data[..|s|][i];
    assert rest[n] == NUL && rest[..n] == s[needle..needle + n];
    CStrIs(rest, n);
  }

  /** One turn of the scan either finds the next CRLF of the cut string or has reached its last line. */
  lemma ScanStep(s: string, data: seq<char>, needle: nat)
    requires CutFrom(s, data)
    requires if |s| < 4 then needle == 2 else 2 <= needle <= |s| - 2
    requires needle == 2 || (needle >= 4 && CrlfAt(s[..|s| - 2], needle - 2))
    ensures match FindCrlf(CStr(data[needle..]), 0)
            case Some(h) => CrlfAt(s[..|s| - 2], needle + h)
            case None => |s| < 4 || LastLineStart(s[..|s| - 2], needle)
  {
    RestOfCut(s, data, needle);
    var body, text := s[..|s| - 2], CStr(data[needle..]);
    if |s| >= 4 {
      forall k | needle <= k && CrlfAt(body, k) ensures CrlfAt(text, k - needle) {}
    }
  }

  /**
   * The parser, in place on the caller's buffer: cuts off the trailing CRLF by overwriting its first
   * character, walks from CRLF to CRLF, compares what is left with every name, and undoes the cut.
   */
  method GetStatus(data: array<char>) returns (status: Status)
    requires NUL in data[..]
    modifies data
    ensures data[..] == old(data[..])
    ensures status == Classify(CStr(data[..]))
    ensures CodesByText(CStr(data[..]), status)
  {
    hide CStr, Classify, Lookup, EndsWithLine, Name, CodesByText;
    ghost var s := CStr(data[..]);
    ClassifyByText(s);
    CStrPrefix(data[..]);
    var length := |CStr(data[..])|;
    if length < 2 { NoLine(s); return Invalid; }
    assert data[..length] == s && data[length] == NUL;
    if data[length - 2] != '\r' || data[length - 1] != '\n' { NoLine(s); return Invalid; }

    data[length - 2] := NUL;
    var needle := 0;
    var crlf := Some(0);
    while crlf.Some?
      invariant data[..] == old(data[..])[length - 2 := NUL]
      invariant crlf.Some? ==> crlf.value == 0 || (2 <= crlf.value && CrlfAt(s[..length - 2], crlf.value))
      invariant crlf.None? ==> if length < 4 then needle == 2 else LastLineStart(s[..length - 2], needle)
      decreases if crlf.Some? then length - crlf.value else -1
    {
      needle := crlf.value + 2;
      ScanStep(s, data[..], needle);
      assert data[..][needle..] == data[needle..];
      var hit := FindCrlf(CStr(data[needle..]), 0);
      crlf := if hit.Some? then Some(needle + hit.value) else None;
    }

    RestOfCut(s, data[..], needle);
    assert data[..][needle..] == data[needle..];
    status := Lookup(CStr(data[needle..]));
    ClassifyByLookup(s, needle, status);

    data[length - 2] := '\r';
    assert data[..] == old(data[..]);
  }

  /** Whatever is reported is a final line of the string. */
  lemma ClassifyIsLine(s: string)
    ensures Classify(s) != Timeout
    ensures Classify(s) != Invalid ==> EndsWithLine(s, Name(Classify(s)))
    ensures Classify(s) == Invalid ==> forall c :: Recognised(c) ==> !EndsWithLine(s, Name(c))
  {
    FirstFittingFits(s, CODES);
    forall c | Recognised(c) ensures c in CODES {
      match c { case Ok => case Connect => case Ring => case NoCarrier => case Error =>
        case NoDialtone => case Busy => case NoAnswer => case Proceeding => }
    }
  }

  /** At most one line fits: a final line determines its text. */
  lemma OneLine(s: string, a: string, b: string)
    requires EndsWithLine(s, a) && EndsWithLine(s, b)
    requires '\n' !in a && '\n' !in b
    ensures a == b
  {
    var i, j := |s| - 2 - |a|, |s| - 2 - |b|;
    assert forall n :: i <= n < |s| - 2 ==> s[n] == a[n - i] != '\n';
    assert forall n :: j <= n < |s| - 2 ==> s[n] == b[n - j] != '\n';
  }

  /** No two codes have the same name. */
  lemma NamesDiffer(c: Status, d: Status)
    requires Recognised(c) && Recognised(d) && Name(c) == Name(d)
    ensures c == d
  {
  }

  /** A recognised code is reported for exactly the strings that end with its line. */
  lemma ClassifyExactly(s: string, c: Status)
    requires Recognised(c)
    ensures Classify(s) == c <==> EndsWithLine(s, Name(c))
  {
    ClassifyIsLine(s);
    if EndsWithLine(s, Name(c)) {
      OneLine(s, Name(c), Name(Classify(s)));
      NamesDiffer(c, Classify(s));
    }
  }

  /**
   * Round trip.  A modem sends an arbitrary text, CRLF, a result code, CRLF.  The code comes back for every
   * text but the one-character ones, whose CRLF is damaged by the two characters skipped at the front.
   */
  lemma RoundTrip(p: string, c: Status)
    requires Recognised(c)
    ensures Classify(p + CRLF + Name(c) + CRLF) == (if |p| == 1 then Invalid else c)
  {
    hide Classify, Name;
    var s := p + CRLF + Name(c) + CRLF;
    var k := |p| + 2;
    assert s[k..|s| - 2] == Name(c);
    if |p| != 1 {
      ClassifyExactly(s, c);
    } else {
      ClassifyIsLine(s);
      var d := Classify(s);
      assert s[2] == '\n' && forall i :: 3 <= i < |s| - 2 ==> s[i] == Name(c)[i - 3];
    }
  }

  /** An answer behind bytes that are still in the buffer: only a single stale byte hides it. */
  lemma StaleBytes(stale: seq<char>, code: Status)
    requires NUL !in stale && Recognised(code)
    ensures Classify(CStr(stale + (CRLF + Name(code) + CRLF))) == (if |stale| == 1 then Invalid else code)
  {
    hide Classify, Name, CStr, EndsWithLine;
    var text := stale + CRLF + Name(code) + CRLF;
    assert stale + (CRLF + Name(code) + CRLF) == text;
    CStrIs(text, |text|);
    assert text[..|text|] == text;
    RoundTrip(stale, code);
  }

  /** The two forms of a string that ends with a line: behind a line break, or behind the first two characters. */
  lemma EndsWithLineMeans(s: string, name: string)
    ensures EndsWithLine(s, name) <==>
              || (exists p: string :: |p| >= 2 && s == p + "\r\n" + name + "\r\n")
              || (exists p: string :: |p| == 2 && s == p + name + "\r\n")
  {
    var k := |s| - 2 - |name|;
    if EndsWithLine(s, name) {
      if k == 2 {
        assert s == s[..2] + name + "\r\n";
      } else {
        assert s == s[..k - 2] + "\r\n" + name + "\r\n";
      }
    }
    forall p: string | |p| >= 2 && s == p + "\r\n" + name + "\r\n" ensures EndsWithLine(s, name) {
      assert k == |p| + 2 && s[k..|s| - 2] == name;
    }
    forall p: string | |p| == 2 && s == p + name + "\r\n" ensures EndsWithLine(s, name) {
      assert k == 2 && s[k..|s| - 2] == name;
    }
  }

  /** The codes with their texts, one by one: each is reported for exactly the strings that end with its line. */
  ghost predicate CodesByText(s: string, c: Status) {
    && (c == Ok <==> EndsWithLine(s, "OK"))
    && (c == Connect <==> EndsWithLine(s, "CONNECT"))
    && (c == Ring <==> EndsWithLine(s, "RING"))
    && (c == NoCarrier <==> EndsWithLine(s, "NO CARRIER"))
    && (c == Error <==> EndsWithLine(s, "ERROR"))
    && (c == NoDialtone <==> EndsWithLine(s, "NO DIALTONE"))
    && (c == Busy <==> EndsWithLine(s, "BUSY"))
    && (c == NoAnswer <==> EndsWithLine(s, "NO ANSWER"))
    && (c == Proceeding <==> EndsWithLine(s, "PROCEEDING"))
  }

  lemma ClassifyByText(s: string)
    ensures CodesByText(s, Classify(s))
  {
    hide Classify, EndsWithLine;
    ClassifyExactly(s, Ok);
    ClassifyExactly(s, Connect);
    ClassifyExactly(s, Ring);
    ClassifyExactly(s, NoCarrier);
    ClassifyExactly(s, Error);
    ClassifyExactly(s, NoDialtone);
    ClassifyExactly(s, Busy);
    ClassifyExactly(s, NoAnswer);
    ClassifyExactly(s, Proceeding);
  }

  /** The round trip with the texts written out. */
  lemma RoundTripTexts(p: string)
    requires |p| != 1
    ensures Classify(p + "\r\n" + "OK" + "\r\n") == Ok
    ensures Classify(p + "\r\n" + "CONNECT" + "\r\n") == Connect
    ensures Classify(p + "\r\n" + "RING" + "\r\n") == Ring
    ensures Classify(p + "\r\n" + "NO CARRIER" + "\r\n") == NoCarrier
    ensures Classify(p + "\r\n" + "ERROR" + "\r\n") == Error
    ensures Classify(p + "\r\n" + "NO DIALTONE" + "\r\n") == NoDialtone
    ensures Classify(p + "\r\n" + "BUSY" + "\r\n") == Busy
    ensures Classify(p + "\r\n" + "NO ANSWER" + "\r\n") == NoAnswer
    ensures Classify(p + "\r\n" + "PROCEEDING" + "\r\n") == Proceeding
  {
    hide Classify;
    RoundTrip(p, Ok);
    RoundTrip(p, Connect);
    RoundTrip(p, Ring);
    RoundTrip(p, NoCarrier);
    RoundTrip(p, Error);
    RoundTrip(p, NoDialtone);
    RoundTrip(p, Busy);
    RoundTrip(p, NoAnswer);
    RoundTrip(p, Proceeding);
  }
}
