/** `isValidIanaTimezone`: the trimmed text must be a run of area characters
    (`[A-Za-z_]`) followed by one or more `/`-separated segments of
    `[A-Za-z0-9_+-]`. The pattern is run as a four-state recognizer and proved
    equal to a declarative description of the same shape. */
module Timezone {
  import opened Maybe

  /** The characters JavaScript's `String.prototype.trim` removes: white space
      and line terminators. */
  predicate IsJsSpace(c: char) {
    || '\t' <= c <= '\r'
    || c == ' ' || c == '\U{00A0}' || c == '\U{1680}'
    || '\U{2000}' <= c <= '\U{200A}'
    || c == '\U{2028}' || c == '\U{2029}' || c == '\U{202F}' || c == '\U{205F}'
    || c == '\U{3000}' || c == '\U{FEFF}'
  }

  /** The end of the white space that starts at `i`. */
  function Lead(s: string, i: nat): (k: nat)
    requires i <= |s|
    ensures i <= k <= |s|
    ensures forall j :: i <= j < k ==> IsJsSpace(s[j])
    ensures k < |s| ==> !IsJsSpace(s[k])
    decreases |s| - i
  {
    if i < |s| && IsJsSpace(s[i]) then Lead(s, i + 1) else i
  }

  /** The start of the white space that ends at `j`, not going below `lo`. */
  function Trail(s: string, lo: nat, j: nat): (k: nat)
    requires lo <= j <= |s|
    ensures lo <= k <= j
    ensures forall m :: k <= m < j ==> IsJsSpace(s[m])
    ensures k > lo ==> !IsJsSpace(s[k - 1])
  {
    if j > lo && IsJsSpace(s[j - 1]) then Trail(s, lo, j - 1) else j
  }

  /** `String.prototype.trim`: the text between the leading and trailing white space. */
  function Trim(s: string): (r: string)
    ensures |r| <= |s|
    ensures |r| > 0 ==> !IsJsSpace(r[0]) && !IsJsSpace(r[|r| - 1])
  {
    var a := Lead(s, 0);
    s[a..Trail(s, a, |s|)]
  }

  /** Text without white space at either end is left as it is. */
  lemma {:induction false} TrimUnpadded(s: string)
    requires |s| > 0 ==> !IsJsSpace(s[0]) && !IsJsSpace(s[|s| - 1])
    ensures Trim(s) == s
  {
  }

  /** Trimming twice is trimming once. */
  lemma {:induction false} TrimIdempotent(s: string)
    ensures Trim(Trim(s)) == Trim(s)
  {
    TrimUnpadded(Trim(s));
  }

  predicate AreaChar(c: char) {
    ('A' <= c <= 'Z') || ('a' <= c <= 'z') || c == '_'
  }

  predicate SegmentChar(c: char) {
    AreaChar(c) || ('0' <= c <= '9') || c == '-' || c == '+'
  }

  /** Where the recognizer is in the pattern. */
  datatype Phase = Start | InArea | AfterSlash | InSegment

  /** Runs the recognizer over `s[i..]` from `phase`; only a finished segment accepts. */
  function Accepts(s: string, i: nat, phase: Phase): bool
    requires i <= |s|
    decreases |s| - i
  {
    if i == |s| then phase == InSegment
    else
      var c := s[i];
      match phase
      case Start => AreaChar(c) && Accepts(s, i + 1, InArea)
      case InArea =>
        if AreaChar(c) then Accepts(s, i + 1, InArea)
        else c == '/' && Accepts(s, i + 1, AfterSlash)
      case AfterSlash => SegmentChar(c) && Accepts(s, i + 1, InSegment)
      case InSegment =>
        if SegmentChar(c) then Accepts(s, i + 1, InSegment)
        else c == '/' && Accepts(s, i + 1, AfterSlash)
  }

  /** `s[i..]` is made of segment characters and slashes, never two slashes in a
      row, and does not end in a slash. */
  predicate Segments(s: string, i: nat)
    requires i <= |s|
  {
    && (forall j :: i <= j < |s| ==> SegmentChar(s[j]) || s[j] == '/')
    && (forall j :: i <= j < |s| - 1 ==> s[j] == '/' ==> s[j + 1] != '/')
    && (i < |s| ==> s[|s| - 1] != '/')
  }

  /** The declarative form of the pattern: an area of one or more area
      characters, a slash at `k`, then segments that do not start with a slash. */
  ghost predicate IanaShapeAt(s: string, k: nat) {
    && 0 < k < |s| - 1
    && s[k] == '/'
    && (forall j :: 0 <= j < k ==> AreaChar(s[j]))
    && s[k + 1] != '/'
    && Segments(s, k + 1)
  }

  ghost predicate IanaShape(s: string) {
    exists k: nat :: IanaShapeAt(s, k)
  }

  lemma {:induction false} InSegmentExact(s: string, i: nat)
    requires i <= |s|
    ensures Accepts(s, i, InSegment) <==> Segments(s, i)
    decreases |s| - i
  {
    if i < |s| {
      InSegmentExact(s, i + 1);
      if s[i] == '/' && i + 1 < |s| {
        InSegmentExact(s, i + 2);
      }
    }
  }

  lemma {:induction false} AfterSlashExact(s: string, i: nat)
    requires i <= |s|
    ensures Accepts(s, i, AfterSlash) <==> i < |s| && s[i] != '/' && Segments(s, i)
  {
    if i < |s| {
      InSegmentExact(s, i + 1);
      InSegmentExact(s, i);
    }
  }

  /** From inside the area the recognizer accepts exactly when the area
      continues up to a slash at some `k` and what follows it is accepted. */
  lemma {:induction false} InAreaExact(s: string, i: nat)
    requires i <= |s|
    ensures Accepts(s, i, InArea) <==>
              exists k :: i <= k < |s| && s[k] == '/'
                          && (forall j :: i <= j < k ==> AreaChar(s[j]))
                          && Accepts(s, k + 1, AfterSlash)
    decreases |s| - i
  {
    if i < |s| {
      InAreaExact(s, i + 1);
      if Accepts(s, i, InArea) && !AreaChar(s[i]) {
        assert s[i] == '/';
      }
    }
  }

  /** The recognizer accepts exactly the strings of the declarative shape. */
  lemma {:induction false} RecognizerIsShape(s: string)
    ensures Accepts(s, 0, Start) <==> IanaShape(s)
  {
    if |s| > 0 {
      InAreaExact(s, 1);
      if Accepts(s, 0, Start) {
        var k :| 1 <= k < |s| && s[k] == '/'
                 && (forall j :: 1 <= j < k ==> AreaChar(s[j]))
                 && Accepts(s, k + 1, AfterSlash);
        AfterSlashExact(s, k + 1);
        assert IanaShapeAt(s, k);
      }
      if IanaShape(s) {
        var k: nat :| IanaShapeAt(s, k);
        AfterSlashExact(s, k + 1);
        assert AreaChar(s[0]);
      }
    }
  }

  /** `isValidIanaTimezone(tz)`: a missing value or the empty string is tested as "". */
  function IsValidIanaTimezone(tz: Option<string>): bool {
    Accepts(Trim(tz.GetOr("")), 0, Start)
  }

  /** The test holds exactly for values whose trimmed text has the shape. */
  lemma {:induction false} ValidIffShape(tz: Option<string>)
    ensures IsValidIanaTimezone(tz) <==> IanaShape(Trim(tz.GetOr("")))
  {
    RecognizerIsShape(Trim(tz.GetOr("")));
  }

  /** A valid timezone names an area and at least one slash-separated part. */
  lemma {:induction false} ValidHasSlash(tz: Option<string>)
    requires IsValidIanaTimezone(tz)
    ensures tz.Some? && '/' in Trim(tz.value)
  {
    ValidIffShape(tz);
    var k: nat :| IanaShapeAt(Trim(tz.GetOr("")), k);
  }

  /** Text without surrounding white space is tested as it is. */
  lemma {:induction false} ValidUnpadded(s: string)
    requires |s| > 0 ==> !IsJsSpace(s[0]) && !IsJsSpace(s[|s| - 1])
    ensures IsValidIanaTimezone(Some(s)) == Accepts(s, 0, Start)
  {
    TrimUnpadded(s);
  }

  /** A name the recognizer accepts passes the test untrimmed: it starts with
      an area character and ends with a segment character, and neither is
      white space. */
  lemma {:induction false} AcceptedIsValid(s: string)
    requires Accepts(s, 0, Start)
    ensures IsValidIanaTimezone(Some(s))
  {
    RecognizerIsShape(s);
    var k: nat :| IanaShapeAt(s, k);
    assert AreaChar(s[0]);
    assert SegmentChar(s[|s| - 1]);
    ValidUnpadded(s);
  }

  lemma {:induction false} NewYorkAccepted()
    ensures Accepts("America/New_York", 0, Start)
  {
  }

  lemma {:induction false} EtcAccepted()
    ensures Accepts("Etc/GMT+5", 0, Start)
  {
  }

  lemma {:induction false} ThreePartsAccepted()
    ensures Accepts("America/Indiana/Knox", 0, Start)
  {
    var s := "America/Indiana/Knox";
    assert Accepts(s, 15, InSegment);
    assert Accepts(s, 7, InArea);
  }

  lemma {:induction false} AcceptedExamples()
    ensures IsValidIanaTimezone(Some("America/New_York"))
    ensures IsValidIanaTimezone(Some("Etc/GMT+5"))
    ensures IsValidIanaTimezone(Some("America/Indiana/Knox"))
  {
    NewYorkAccepted();
    ValidUnpadded("America/New_York");
    EtcAccepted();
    ValidUnpadded("Etc/GMT+5");
    ThreePartsAccepted();
    ValidUnpadded("America/Indiana/Knox");
  }

  lemma {:induction false} RejectedShapes()
    ensures !Accepts("UTC", 0, Start)
    ensures !Accepts("America", 0, Start)
    ensures !Accepts("America/", 0, Start)
    ensures !Accepts("9Z/Foo", 0, Start)
    ensures !Accepts("America//New_York", 0, Start)
  {
  }

  lemma {:induction false} RejectedExamples()
    ensures !IsValidIanaTimezone(Some("UTC"))
    ensures !IsValidIanaTimezone(Some("America"))
    ensures !IsValidIanaTimezone(Some(""))
    ensures !IsValidIanaTimezone(Some("   "))
    ensures !IsValidIanaTimezone(None)
  {
    RejectedShapes();
    ValidUnpadded("UTC");
    ValidUnpadded("America");
    assert Lead("   ", 0) == 3;
  }

  /** Surrounding white space is ignored by the test (the caller then keeps the
      untrimmed text). */
  lemma {:induction false} PaddedExample()
    ensures IsValidIanaTimezone(Some(" Asia/Tokyo\n"))
  {
    assert Lead(" Asia/Tokyo\n", 0) == 1;
    assert Trail(" Asia/Tokyo\n", 1, 12) == 11;
    assert Trim(" Asia/Tokyo\n") == "Asia/Tokyo";
  }
}
