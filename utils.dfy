/** The pure helpers of src/utils/index.ts that the analysis and its views rely on: address
    validation, address shortening and the progress-bar percentage. */
module Utils {
  import opened Common

  // ---------------------------------------------------------------------------
  // isValidAddress

  predicate IsHexDigit(c: char) {
    '0' <= c <= '9' || 'a' <= c <= 'f' || 'A' <= c <= 'F'
  }

  /** `[a-fA-F0-9]{n}` anchored at both ends: `s` is exactly `n` hex digits. */
  predicate HexRun(s: string, n: nat) {
    if s == [] then n == 0
    else n > 0 && IsHexDigit(s[0]) && HexRun(s[1..], n - 1)
  }

  /** `/^0x[a-fA-F0-9]{40}$/.test(address)`, matched left to right. */
  predicate IsValidAddress(address: string) {
    |address| >= 2 && address[0] == '0' && address[1] == 'x' && HexRun(address[2..], 40)
  }

  lemma {:induction false} HexRunMeans(s: string, n: nat)
    ensures HexRun(s, n) <==> |s| == n && forall i :: 0 <= i < |s| ==> IsHexDigit(s[i])
  {
    if s != [] && n > 0 {
      HexRunMeans(s[1..], n - 1);
      assert forall i :: 1 <= i < |s| ==> s[i] == s[1..][i - 1];
    }
  }

  /** A valid address is exactly 42 characters: a lower-case `0x` and forty hex digits of either
      case. In particular a `0X` prefix is refused. */
  lemma ValidAddressShape(address: string)
    ensures IsValidAddress(address) <==>
      && |address| == 42 && address[..2] == "0x"
      && forall i :: 2 <= i < 42 ==> IsHexDigit(address[i])
  {
    if |address| >= 2 {
      HexRunMeans(address[2..], 40);
      assert forall i :: 2 <= i < |address| ==> address[i] == address[2..][i - 2];
      if address[..2] == "0x" {
        assert address[0] == address[..2][0] && address[1] == address[..2][1];
      }
    }
  }

  /** Lower-casing a valid address keeps it valid, so the lower-cased keys the analysis compares
      are valid addresses whenever their inputs are. */
  lemma ValidAddressLowered(address: string)
    requires IsValidAddress(address)
    ensures IsValidAddress(Lower(address))
  {
    ValidAddressShape(address);
    ValidAddressShape(Lower(address));
    assert Lower(address)[..2] == "0x" by {
      assert Lower(address)[0] == LowerChar(address[0]) == '0';
      assert Lower(address)[1] == LowerChar(address[1]) == 'x';
    }
  }

  // ---------------------------------------------------------------------------
  // shortenAddress

  /** `shortenAddress(address, chars = 4)`: the first `chars + 2` characters, an ellipsis, and
      the last `chars` characters, all through JavaScript's `slice`. */
  function ShortenAddress(address: string, chars: int := 4): (r: string)
    ensures |r| <= 2 * |address| + 3
  {
    if address == "" then ""
    else Slice(address, 0, chars + 2) + "..." + SliceFrom(address, -chars)
  }

  /** The empty address shortens to the empty string. */
  lemma ShortenEmpty(chars: int)
    ensures ShortenAddress("", chars) == ""
  {
  }

  /** When both ends fit, the result is the head, `...`, and the tail. */
  lemma ShortenAddressParts(address: string, chars: int)
    requires 0 < chars && chars + 2 <= |address|
    ensures ShortenAddress(address, chars) == address[..chars + 2] + "..." + address[|address| - chars..]
    ensures |ShortenAddress(address, chars)| == 2 * chars + 5
  {
  }

  /** A 42-character address with the default `chars` shortens to 13 characters. */
  lemma ShortenAddressDefaultLength(address: string)
    requires |address| == 42
    ensures ShortenAddress(address) == address[..6] + "..." + address[38..]
    ensures |ShortenAddress(address)| == 13
  {
    ShortenAddressParts(address, 4);
  }

  /** With `chars = 0` the tail is `slice(-0)`, which is `slice(0)`: the whole address. */
  lemma ShortenAddressZeroChars(address: string)
    requires |address| >= 2
    ensures ShortenAddress(address, 0) == address[..2] + "..." + address
  {
  }

  // ---------------------------------------------------------------------------
  // getProgressPercentage

  /** `getProgressPercentage(current, target)`: the share of the target reached, in percent,
      capped at 100; 0 for a zero target. */
  function GetProgressPercentage(current: real, target: real): (r: real)
    ensures r <= 100.0
    ensures target == 0.0 ==> r == 0.0
    ensures target != 0.0 ==> r == 100.0 || r == current / target * 100.0
    ensures target != 0.0 ==> r <= current / target * 100.0
  {
    if target == 0.0 then 0.0
    else
      var ratio := current / target * 100.0;
      if ratio < 100.0 then ratio else 100.0
  }

  /** Reaching or passing a positive target is 100%. */
  lemma ProgressFullAtTarget(current: real, target: real)
    requires 0.0 < target <= current
    ensures GetProgressPercentage(current, target) == 100.0
  {
    assert current / target >= 1.0;
  }

  /** Below a positive target the result is the exact percentage, which is never negative for a
      non-negative current value. */
  lemma ProgressBelowTarget(current: real, target: real)
    requires 0.0 <= current < target
    ensures GetProgressPercentage(current, target) == current / target * 100.0
    ensures 0.0 <= GetProgressPercentage(current, target) < 100.0
  {
    assert current / target < 1.0;
  }

  /** There is no lower clamp: a negative current value gives a negative percentage. */
  lemma ProgressNotClampedBelow(current: real, target: real)
    requires 0.0 < target && current < 0.0
    ensures GetProgressPercentage(current, target) == current / target * 100.0
    ensures GetProgressPercentage(current, target) < 0.0
  {
    assert current / target < 0.0;
  }
}
