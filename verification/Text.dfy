/** The small grammars the program's regular expressions name. */
module Text {

  predicate IsDigit(c: char) { '0' <= c <= '9' }

  predicate IsLowerHex(c: char) { IsDigit(c) || 'a' <= c <= 'f' }

  /** Exactly n lowercase hexadecimal digits. */
  predicate IsHex(s: string, n: nat) {
    |s| == n && forall i :: 0 <= i < |s| ==> IsLowerHex(s[i])
  }

  const HASH_PREFIX := "sha256:"

  /** A configuration hash: sha256: and 64 lowercase hex digits. */
  predicate IsConfigHash(s: string) {
    |s| == 71 && s[..7] == HASH_PREFIX && IsHex(s[7..], 64)
  }

  /** A run id an anchor may name: r- and 16 lowercase hex digits. */
  predicate IsRunID(s: string) {
    |s| == 18 && s[..2] == "r-" && IsHex(s[2..], 16)
  }
}
