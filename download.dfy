/**
 * The file `handleDownloadImage` (frontend/src/App.js) builds from an
 * image: the decoded base64 text cut into 512-character slices, each
 * turned into a byte array, and the name the download is saved under.
 */
module Download {
  import opened Text
  import opened Sequences

  const SliceLength := 512
  const FilenamePrefix := "tshirt-design-"
  const FilenameSuffix := ".png"

  newtype Byte = x: int | 0 <= x < 256

  /** The conversion a `Uint8Array` applies to each number stored in it: modulo 256. */
  function ToUint8(x: int): (b: Byte)
    ensures 0 <= x < 256 ==> b as int == x
    ensures (b as int - x) % 256 == 0
  {
    (x % 256) as Byte
  }

  /** The bytes a character string stands for, one `charCodeAt` value per character. */
  function CharCodes(s: string): (bytes: seq<Byte>)
    ensures |bytes| == |s|
    ensures forall i :: 0 <= i < |s| ==> bytes[i] == ToUint8(s[i] as int)
  {
    seq(|s|, i requires 0 <= i < |s| => ToUint8(s[i] as int))
  }

  function Min(a: int, b: int): int
  {
    if a <= b then a else b
  }

  /** Number of slices of a text of length `n`: `n / 512` rounded up. */
  function SliceCount(n: nat): nat
  {
    (n + SliceLength - 1) / SliceLength
  }

  /**
   * The slicing loop of `handleDownloadImage`: the byte arrays handed to
   * the `Blob`, all full except possibly the last, whose concatenation is
   * exactly the bytes of the decoded text.
   */
  method ByteArrays(decoded: string) returns (arrays: seq<seq<Byte>>)
    ensures |arrays| == SliceCount(|decoded|)
    ensures forall k :: 0 <= k < |arrays| ==> 0 < |arrays[k]| <= SliceLength
    ensures forall k :: 0 <= k < |arrays| - 1 ==> |arrays[k]| == SliceLength
    ensures Flatten(arrays) == CharCodes(decoded)
  {
    arrays := [];
    var offset := 0;
    while offset < |decoded|
      invariant offset == SliceLength * |arrays|
      invariant offset < |decoded| + SliceLength
      invariant forall k :: 0 <= k < |arrays| ==> 0 < |arrays[k]| <= SliceLength
      invariant offset <= |decoded| ==> forall k :: 0 <= k < |arrays| ==> |arrays[k]| == SliceLength
      invariant forall k :: 0 <= k < |arrays| - 1 ==> |arrays[k]| == SliceLength
      invariant Flatten(arrays) == CharCodes(decoded[..Min(offset, |decoded|)])
      decreases |decoded| - offset
    {
      var end := if offset + SliceLength <= |decoded| then offset + SliceLength else |decoded|;
      var slice := decoded[offset..end];
      var numbers := new int[|slice|];
      for i := 0 to |slice|
        invariant forall j :: 0 <= j < i ==> numbers[j] == slice[j] as int
      {
        numbers[i] := slice[i] as int;
      }
      var bytes := seq(numbers.Length, j reads numbers requires 0 <= j < numbers.Length => ToUint8(numbers[j]));
      assert bytes == CharCodes(slice);
      FlattenSnoc(arrays, bytes);
      assert decoded[..end] == decoded[..offset] + slice;
      CharCodesAppend(decoded[..offset], slice);
      arrays := arrays + [bytes];
      offset := offset + SliceLength;
    }
    assert decoded[..|decoded|] == decoded;
  }

  lemma CharCodesAppend(a: string, b: string)
    ensures CharCodes(a + b) == CharCodes(a) + CharCodes(b)
  {
  }

  /** The characters a byte sequence reads as when each byte is a character code. */
  function FromBytes(bytes: seq<Byte>): (s: string)
    ensures |s| == |bytes|
  {
    seq(|bytes|, i requires 0 <= i < |bytes| => bytes[i] as int as char)
  }

  /**
   * A binary string (every character below 256, as `atob` produces) is
   * carried into the file unchanged: reading the bytes back gives it again.
   */
  lemma BinaryStringRoundTrip(s: string)
    requires forall i :: 0 <= i < |s| ==> s[i] as int < 256
    ensures FromBytes(CharCodes(s)) == s
  {
  }

  /**
   * The name the file is saved under, numbered from 1. It reads back: it
   * starts with the prefix, the platform and the style, each followed by a
   * dash, ends in ".png", and what lies between is the decimal numeral of
   * `index + 1`, with no leading zero.
   */
  function DownloadFilename(platform: string, stylePreset: string, index: nat): (name: string)
    ensures var head := FilenamePrefix + platform + "-" + stylePreset + "-";
      && |head| + |FilenameSuffix| < |name|
      && name[..|head|] == head
      && name[|name| - |FilenameSuffix|..] == FilenameSuffix
      && (forall i :: |head| <= i < |name| - |FilenameSuffix| ==> IsDigit(name[i]))
      && ParseDecimal(name[|head|..|name| - |FilenameSuffix|]) == index + 1
      && name[|head|] != '0'
  {
    var head := FilenamePrefix + platform + "-" + stylePreset + "-";
    NumberedParts(head, index + 1, FilenameSuffix);
    head + NatToString(index + 1) + FilenameSuffix
  }

  /** The image's number is the last part of its name, so two images of one batch never share a name. */
  lemma {:induction false} DownloadFilenameInjective(platform: string, stylePreset: string, i: nat, j: nat)
    requires DownloadFilename(platform, stylePreset, i) == DownloadFilename(platform, stylePreset, j)
    ensures i == j
  {
    var head := FilenamePrefix + platform + "-" + stylePreset + "-";
    var a := NatToString(i + 1);
    var b := NatToString(j + 1);
    assert head + a + FilenameSuffix == head + b + FilenameSuffix;
    assert |a| == |b|;
    assert a == (head + a + FilenameSuffix)[|head|..|head| + |a|];
    assert b == (head + b + FilenameSuffix)[|head|..|head| + |b|];
    NatToStringInjective(i + 1, j + 1);
  }

  /** The first image of a web request in the photographic style. */
  lemma FirstWebPhotographicName()
    ensures DownloadFilename("web", "photographic", 0) == "tshirt-design-web-photographic-1.png"
  {
    assert NatToString(1) == "1";
    assert FilenamePrefix + "web" + "-" + "photographic" + "-" == "tshirt-design-web-photographic-";
  }
}
