// The checksum string iRODS reports: how it is parsed, and that the parsed
// decision is the one on digests.
module Checksum {
  import opened Storage

  /** What str.strip removes, within ASCII. */
  predicate Blank(c: char) {
    c == ' ' || 0x09 <= c as int <= 0x0d || 0x1c <= c as int <= 0x1f
  }

  function StripLeft(s: string): string {
    if s != [] && Blank(s[0]) then StripLeft(s[1..]) else s
  }

  function StripRight(s: string): string {
    if s != [] && Blank(s[|s| - 1]) then StripRight(s[..|s| - 1]) else s
  }

  function Strip(s: string): string {
    StripRight(StripLeft(s))
  }

  function LowerChar(c: char): char {
    if 'A' <= c <= 'Z' then (c as int + 32) as char else c
  }

  function Lower(s: string): string {
    seq(|s|, i requires 0 <= i < |s| => LowerChar(s[i]))
  }

  /** Where str.partition(":") cuts: the first colon, or the end. */
  function FirstColon(s: string): (k: nat)
    ensures k <= |s| && ':' !in s[..k] && (k < |s| ==> s[k] == ':')
  {
    if s == [] || s[0] == ':' then 0 else
      var k := 1 + FirstColon(s[1..]);
      assert s[..k] == [s[0]] + s[1..][..k - 1];
      k
  }

  function AlgorithmOf(name: string): Algorithm {
    if name == "sha2" || name == "sha256" then Sha2 else if name == "md5" then Md5 else OtherAlgorithm
  }

  // The hexadecimal digests of a file, by content.
  datatype Hashing = Hashing(sha256: Blob -> string, md5: Blob -> string)

  /** _checksum_matches, on the text. */
  predicate Matches(h: Hashing, local: Blob, remote: string) {
    remote == "" ||
    var text := Strip(remote);
    var k := FirstColon(text);
    if k == |text| then
      Lower(text) == h.sha256(local) || Lower(text) == h.md5(local)
    else
      match AlgorithmOf(Lower(text[..k]))
      case Sha2 => Lower(text[k + 1..]) == h.sha256(local)
      case Md5 => Lower(text[k + 1..]) == h.md5(local)
      case OtherAlgorithm => true
  }

  // -------------------------------------------------------------- what the server wrote

  ghost predicate Blanks(s: string) {
    forall i | 0 <= i < |s| :: Blank(s[i])
  }

  predicate Trimmed(s: string) {
    s != [] && !Blank(s[0]) && !Blank(s[|s| - 1])
  }

  /** The two texts differ at most in the case of letters of s: each of its capitals stands for the small letter. */
  ghost predicate SameLetters(s: string, t: string) {
    && |s| == |t|
    && forall i | 0 <= i < |s| :: if 'A' <= s[i] <= 'Z' then t[i] as int == s[i] as int + 32 else t[i] == s[i]
  }

  lemma LowerMeans(s: string, t: string)
    ensures Lower(s) == t <==> SameLetters(s, t)
  {
    if SameLetters(s, t) {
      assert forall i | 0 <= i < |s| :: LowerChar(s[i]) == t[i];
    }
    if Lower(s) == t {
      forall i | 0 <= i < |s| ensures if 'A' <= s[i] <= 'Z' then t[i] as int == s[i] as int + 32 else t[i] == s[i] {
        assert t[i] == LowerChar(s[i]);
      }
    }
  }

  ghost predicate Spells(h: Hashing, hex: string, d: Digest) {
    match d.algorithm
    case Sha2 => SameLetters(hex, h.sha256(d.of))
    case Md5 => SameLetters(hex, h.md5(d.of))
    case OtherAlgorithm => true
  }

  /** The prefixes that name an algorithm, in any case. */
  ghost predicate Names(prefix: string, a: Algorithm) {
    match a
    case Sha2 => SameLetters(prefix, "sha2") || SameLetters(prefix, "sha256")
    case Md5 => SameLetters(prefix, "md5")
    case OtherAlgorithm => !SameLetters(prefix, "sha2") && !SameLetters(prefix, "sha256") && !SameLetters(prefix, "md5")
  }

  lemma NamesMean(prefix: string, a: Algorithm)
    ensures AlgorithmOf(Lower(prefix)) == a <==> Names(prefix, a)
  {
    LowerMeans(prefix, "sha2");
    LowerMeans(prefix, "sha256");
    LowerMeans(prefix, "md5");
  }

  /**
   * The text reports the answer: nothing at all, or blanks, the algorithm's
   * prefix and a colon if the answer names one, the digest, and blanks; letters
   * in either case.
   */
  ghost predicate Reports(h: Hashing, left: string, body: string, right: string, answer: Answer) {
    if answer.NoChecksum? then left == body == right == "" else
      && Blanks(left) && Blanks(right) && Trimmed(body)
      && if answer.Untagged? then
           ':' !in body && !answer.digest.algorithm.OtherAlgorithm? && Spells(h, body, answer.digest)
         else
           exists k :: 0 <= k < |body| && body[k] == ':' && ':' !in body[..k]
             && answer.algorithm == answer.digest.algorithm && Names(body[..k], answer.algorithm)
             && Spells(h, body[k + 1..], answer.digest)
  }

  /** Two files the digests tell apart, if they differ. SHA-256 and MD5 differ in length. */
  ghost predicate ToldApart(h: Hashing, a: Blob, b: Blob) {
    && (h.sha256(a) == h.sha256(b) ==> a == b)
    && (h.md5(a) == h.md5(b) ==> a == b)
    && |h.sha256(a)| == |h.sha256(b)| == 64 && |h.md5(a)| == |h.md5(b)| == 32
  }

  lemma {:induction false} StripLeftOf(left: string, s: string)
    requires Blanks(left) && s != [] && !Blank(s[0])
    ensures StripLeft(left + s) == s
  {
    if left == [] {
      assert left + s == s;
    } else {
      assert Blanks(left[1..]);
      StripLeftOf(left[1..], s);
      assert (left + s)[1..] == left[1..] + s;
    }
  }

  lemma {:induction false} StripRightOf(s: string, right: string)
    requires Blanks(right) && s != [] && !Blank(s[|s| - 1])
    ensures StripRight(s + right) == s
  {
    if right == [] {
      assert s + right == s;
    } else {
      assert Blanks(right[..|right| - 1]);
      StripRightOf(s, right[..|right| - 1]);
      assert (s + right)[..|s + right| - 1] == s + right[..|right| - 1];
    }
  }

  lemma StripOf(left: string, body: string, right: string)
    requires Blanks(left) && Blanks(right) && Trimmed(body)
    ensures Strip(left + body + right) == body
  {
    assert left + body + right == left + (body + right);
    StripLeftOf(left, body + right);
    StripRightOf(body, right);
  }

  lemma ColonIsFirst(body: string, k: nat)
    requires k < |body| && body[k] == ':' && ':' !in body[..k]
    ensures FirstColon(body) == k
  {
    var c := FirstColon(body);
  }

  /** The decision on the text is the decision on the digest it reports. */
  lemma TextDecides(h: Hashing, local: Blob, left: string, body: string, right: string, answer: Answer)
    requires Reports(h, left, body, right, answer)
    requires !answer.NoChecksum? ==> ToldApart(h, local, answer.digest.of)
    ensures Matches(h, local, left + body + right) <==> ChecksumMatches(local, answer)
  {
    if !answer.NoChecksum? {
      StripOf(left, body, right);
      assert |left + body + right| > 0;
      var k := FirstColon(body);
      if answer.Tagged? {
        var colon :| 0 <= colon < |body| && body[colon] == ':' && ':' !in body[..colon]
          && answer.algorithm == answer.digest.algorithm && Names(body[..colon], answer.algorithm)
          && Spells(h, body[colon + 1..], answer.digest);
        ColonIsFirst(body, colon);
        NamesMean(body[..k], answer.algorithm);
        SpellsMeans(h, body[k + 1..], answer.digest);
      } else {
        assert k == |body|;
        SpellsMeans(h, body, answer.digest);
      }
    }
  }

  lemma SpellsMeans(h: Hashing, hex: string, d: Digest)
    requires Spells(h, hex, d)
    ensures d.algorithm.Sha2? ==> Lower(hex) == h.sha256(d.of)
    ensures d.algorithm.Md5? ==> Lower(hex) == h.md5(d.of)
  {
    LowerMeans(hex, h.sha256(d.of));
    LowerMeans(hex, h.md5(d.of));
  }

  /**
   * Whatever its case, prefix and padding, an honest checksum string is accepted
   * exactly when the stored bytes are the local ones, or when it names no
   * algorithm the client can recompute.
   */
  lemma TextAcceptedExactlyWhenIntact(h: Hashing, local: Blob, stored: Blob, left: string, body: string, right: string, answer: Answer)
    requires Reports(h, left, body, right, answer) && Honest(answer, stored) && ToldApart(h, local, stored)
    ensures Matches(h, local, left + body + right) <==> !Verifiable(answer) || stored == local
  {
    TextDecides(h, local, left, body, right, answer);
    AcceptedExactlyWhenIntact(local, stored, answer);
  }

  /** A prefix in front of a digest. */
  lemma PrefixedMatches(h: Hashing, local: Blob, prefix: string, hex: string, text: string)
    requires prefix != "" && ':' !in prefix && !Blank(prefix[0]) && Trimmed(hex) && text == prefix + ":" + hex
    ensures Names(prefix, Sha2) ==> (Matches(h, local, text) <==> SameLetters(hex, h.sha256(local)))
    ensures Names(prefix, Md5) ==> (Matches(h, local, text) <==> SameLetters(hex, h.md5(local)))
    ensures Names(prefix, OtherAlgorithm) ==> Matches(h, local, text)
  {
    StripOf("", text, "");
    assert "" + text + "" == text;
    assert text[..|prefix|] == prefix && text[|prefix| + 1..] == hex;
    ColonIsFirst(text, |prefix|);
    NamesMean(prefix, Sha2);
    NamesMean(prefix, Md5);
    NamesMean(prefix, OtherAlgorithm);
    LowerMeans(hex, h.sha256(local));
    LowerMeans(hex, h.md5(local));
  }

  /**
   * The prefixes iRODS uses are all checked: behind any of them a digest is
   * accepted exactly when it is the local file's, capitals read as small letters.
   */
  lemma Sha2IsChecked(h: Hashing, local: Blob, hex: string)
    requires Trimmed(hex)
    ensures Matches(h, local, "sha2:" + hex) <==> SameLetters(hex, h.sha256(local))
  {
    assert "sha2:" + hex == "sha2" + ":" + hex;
    PrefixedMatches(h, local, "sha2", hex, "sha2:" + hex);
  }

  lemma Sha256IsChecked(h: Hashing, local: Blob, hex: string)
    requires Trimmed(hex)
    ensures Matches(h, local, "sha256:" + hex) <==> SameLetters(hex, h.sha256(local))
  {
    assert "sha256:" + hex == "sha256" + ":" + hex;
    PrefixedMatches(h, local, "sha256", hex, "sha256:" + hex);
  }

  lemma Md5IsChecked(h: Hashing, local: Blob, hex: string)
    requires Trimmed(hex)
    ensures Matches(h, local, "md5:" + hex) <==> SameLetters(hex, h.md5(local))
  {
    assert "md5:" + hex == "md5" + ":" + hex;
    PrefixedMatches(h, local, "md5", hex, "md5:" + hex);
  }

  lemma CapitalsAreChecked(h: Hashing, local: Blob, hex: string)
    requires Trimmed(hex)
    ensures Matches(h, local, "SHA2:" + hex) <==> SameLetters(hex, h.sha256(local))
  {
    assert "SHA2:" + hex == "SHA2" + ":" + hex;
    PrefixedMatches(h, local, "SHA2", hex, "SHA2:" + hex);
  }

  /** Blanks are the ASCII characters str.strip removes. */
  lemma BlanksAreWhitespace(c: char)
    ensures Blank(c) <==> c in {' ', '\t', '\n', '\U{0B}', '\U{0C}', '\r', '\U{1C}', '\U{1D}', '\U{1E}', '\U{1F}'}
  {
  }

  /** A string of blanks is not an absent checksum: it is rejected. */
  lemma {:induction false} BlankIsRejected(h: Hashing, local: Blob, remote: string)
    requires remote != "" && Blanks(remote) && |h.sha256(local)| == 64 && |h.md5(local)| == 32
    ensures !Matches(h, local, remote)
  {
    AllStripped(remote);
    assert |Lower("")| == 0;
  }

  lemma {:induction false} AllStripped(s: string)
    requires Blanks(s)
    ensures StripLeft(s) == ""
  {
    if s != [] {
      assert Blanks(s[1..]);
      AllStripped(s[1..]);
    }
  }
}
