/**
 * services/storageService.ts: the object paths uploads are stored under,
 * the conversion of the decoded base64 text into bytes, the progress
 * percentage and getImageUrl. The uploads themselves (the storage
 * service, `fetch`, file reading, `atob`) are outside the model.
 */
module StorageService {
  import opened Wrappers
  import opened Types

  /** The decimal digit character of `d`. */
  function DigitChar(d: nat): char
    requires d < 10
  {
    ['0', '1', '2', '3', '4', '5', '6', '7', '8', '9'][d]
  }

  function DigitValue(c: char): nat
  {
    if '0' <= c <= '9' then (c as int - '0' as int) as nat else 0
  }

  ghost predicate IsDigits(s: string)
  {
    forall i :: 0 <= i < |s| ==> '0' <= s[i] <= '9'
  }

  /** How a template literal renders a non-negative whole number: its decimal digits, no leading zero. */
  function DecimalString(n: nat): (s: string)
    ensures |s| > 0 && IsDigits(s)
    ensures |s| > 1 ==> s[0] != '0'
  {
    if n < 10 then [DigitChar(n)] else DecimalString(n / 10) + [DigitChar(n % 10)]
  }

  /** Reads a string of decimal digits back as a number. */
  function ParseDecimal(s: string): nat
  {
    if s == [] then 0 else ParseDecimal(s[..|s| - 1]) * 10 + DigitValue(s[|s| - 1])
  }

  lemma DigitRoundTrip(d: nat)
    requires d < 10
    ensures DigitValue(DigitChar(d)) == d
  {
    var digits := ['0', '1', '2', '3', '4', '5', '6', '7', '8', '9'];
    assert DigitChar(d) == digits[d];
    assert digits[d] as int == '0' as int + d by {
      if d == 0 {} else if d == 1 {} else if d == 2 {} else if d == 3 {} else if d == 4 {}
      else if d == 5 {} else if d == 6 {} else if d == 7 {} else if d == 8 {} else {}
    }
  }

  /** Rendering then reading a number gives it back. */
  lemma {:induction false} DecimalRoundTrip(n: nat)
    ensures ParseDecimal(DecimalString(n)) == n
  {
    if n < 10 {
      DigitRoundTrip(n);
      assert [DigitChar(n)][..0] == [];
    } else {
      DecimalRoundTrip(n / 10);
      DigitRoundTrip(n % 10);
      var s := DecimalString(n);
      assert s[..|s| - 1] == DecimalString(n / 10);
    }
  }

  /** Distinct stamps render differently. */
  lemma DecimalInjective(a: nat, b: nat)
    requires DecimalString(a) == DecimalString(b)
    ensures a == b
  {
    DecimalRoundTrip(a);
    DecimalRoundTrip(b);
  }

  /** The object path of an X-ray upload, a JPEG in the patient's folder; `timestamp` is `Date.now()`. */
  function XrayPath(patientId: string, timestamp: nat): (p: string)
    ensures |p| >= 18 && p[..6] == "xrays/" && p[|p| - 4..] == ".jpg"
  {
    "xrays/" + patientId + "/" + "xray_" + patientId + "_" + DecimalString(timestamp) + ".jpg"
  }

  /**
   * The path lies in the patient's folder and is a JPEG name, and two
   * uploads for one patient at different times never share a path.
   */
  lemma XrayPathSpec(patientId: string, t1: nat, t2: nat)
    ensures var p := XrayPath(patientId, t1);
      && p[..6] == "xrays/" && p[6..6 + |patientId|] == patientId && p[6 + |patientId|] == '/'
      && p[|p| - 4..] == ".jpg"
    ensures t1 != t2 ==> XrayPath(patientId, t1) != XrayPath(patientId, t2)
  {
    var stem := "xrays/" + patientId + "/" + "xray_" + patientId + "_";
    var p1, p2 := XrayPath(patientId, t1), XrayPath(patientId, t2);
    var d1, d2 := DecimalString(t1), DecimalString(t2);
    assert p1 == stem + d1 + ".jpg";
    assert p2 == stem + d2 + ".jpg";
    if p1 == p2 {
      assert |d1| == |d2|;
      assert d1 == p1[|stem|..|stem| + |d1|];
      assert d2 == p2[|stem|..|stem| + |d2|];
      DecimalInjective(t1, t2);
    }
  }

  const ProfilePrefix := "profiles/profile_"
  const JpegSuffix := ".jpg"

  /** The object path of a profile picture: fixed per user, so a new upload replaces the old one. */
  function ProfilePath(userId: string): (p: string)
    ensures |p| == |userId| + 21
    ensures ProfileOwner(p) == Some(userId)
  {
    var p := ProfilePrefix + userId + JpegSuffix;
    assert p[..17] == ProfilePrefix && p[|p| - 4..] == JpegSuffix && p[17..|p| - 4] == userId;
    p
  }

  /** The user a profile path belongs to, if it is one. */
  function ProfileOwner(path: string): Option<string>
  {
    if |path| >= 21 && path[..17] == ProfilePrefix && path[|path| - 4..] == JpegSuffix
    then Some(path[17..|path| - 4])
    else None
  }

  /** Different users never share a profile path. */
  lemma ProfilePathInjective(a: string, b: string)
    requires ProfilePath(a) == ProfilePath(b)
    ensures a == b
  {
  }

  /** `new Uint8Array(numbers)`: every number is taken modulo 256 (ToUint8). */
  function ToUint8(x: int): (b: byte)
    ensures b as int == x % 256
    ensures 0 <= x < 256 ==> b as int == x
  {
    (x % 256) as byte
  }

  /**
   * The loop filling `byteNumbers` with the character codes of the
   * decoded text, then the `Uint8Array` built from it. `byteCharacters`
   * is what `atob` returned.
   */
  method ToByteArray(byteCharacters: string) returns (byteArray: array<byte>)
    ensures fresh(byteArray)
    ensures byteArray.Length == |byteCharacters|
    ensures forall i :: 0 <= i < |byteCharacters| ==> byteArray[i] as int == (byteCharacters[i] as int) % 256
  {
    var byteNumbers := new int[|byteCharacters|];
    var i := 0;
    while i < |byteCharacters|
      invariant 0 <= i <= |byteCharacters|
      invariant forall j :: 0 <= j < i ==> byteNumbers[j] == byteCharacters[j] as int
    {
      byteNumbers[i] := byteCharacters[i] as int;
      i := i + 1;
    }
    var numbers := byteNumbers[..];
    byteArray := new byte[|numbers|](j requires 0 <= j < |numbers| => ToUint8(numbers[j]));
  }

  /** The text whose character codes are the given bytes. */
  function Latin1(bytes: seq<byte>): (s: string)
    ensures |s| == |bytes|
    ensures forall i :: 0 <= i < |bytes| ==> s[i] as int == bytes[i] as int
  {
    seq(|bytes|, i requires 0 <= i < |bytes| => (bytes[i] as int) as char)
  }

  /** `atob` yields only codes below 256; for such text the bytes are exactly its character codes. */
  lemma ByteArrayRoundTrip(byteCharacters: string, bytes: seq<byte>)
    requires forall i :: 0 <= i < |byteCharacters| ==> byteCharacters[i] as int < 256
    requires |bytes| == |byteCharacters|
    requires forall i :: 0 <= i < |bytes| ==> bytes[i] as int == (byteCharacters[i] as int) % 256
    ensures Latin1(bytes) == byteCharacters
  {
    forall i | 0 <= i < |bytes| ensures Latin1(bytes)[i] == byteCharacters[i] {
      assert Latin1(bytes)[i] as int == byteCharacters[i] as int;
    }
  }

  /**
   * The progress callback's value, `bytesTransferred / totalBytes * 100`;
   * None where JavaScript's division gives NaN or Infinity (no bytes in
   * total).
   */
  function UploadProgress(bytesTransferred: nat, totalBytes: nat): (r: Option<real>)
    ensures r.None? <==> totalBytes == 0
    ensures r.Some? && bytesTransferred <= totalBytes ==> 0.0 <= r.value <= 100.0
    ensures r.Some? ==> (r.value == 100.0 <==> bytesTransferred == totalBytes)
    ensures r.Some? ==> (r.value == 0.0 <==> bytesTransferred == 0)
  {
    if totalBytes == 0 then None
    else Some(bytesTransferred as real / totalBytes as real * 100.0)
  }

  /** More bytes sent means more progress. */
  lemma ProgressMonotone(a: nat, b: nat, totalBytes: nat)
    requires a <= b && totalBytes > 0
    ensures UploadProgress(a, totalBytes).value <= UploadProgress(b, totalBytes).value
  {
    var x, y, d := a as real, b as real, totalBytes as real;
    assert y / d - x / d == (y - x) / d;
    assert (y - x) / d >= 0.0;
  }

  /** getImageUrl hands the stored download URL back unchanged. */
  function GetImageUrl(storedUrl: string): (url: string)
    ensures url == storedUrl
  {
    storedUrl
  }
}
