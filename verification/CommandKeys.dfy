/**
 Idempotency keys and the rollback-compatible identities kept beside a command
 (internal/pkg/commandidempotency/ledger.go).
 */
module CommandKeys {
  import opened Prelude
  import opened Utf8

  const IDEMPOTENCY_KEY_MAX_LENGTH := 255
  const SPACE: byte := 0x20

  /** Whether s starts with a control character (U+0000 to U+001F, U+007F to U+009F). */
  predicate StartsWithControl(s: Bytes) {
    s != [] && (s[0] < 0x20 || s[0] == 0x7F || (s[0] == 0xC2 && 1 < |s| && 0x80 <= s[1] <= 0x9F))
  }

  /** The control characters are U+0000 to U+001F and U+007F to U+009F. */
  lemma ControlsExactly(s: Bytes)
    requires Width(s) != 0
    ensures StartsWithControl(s) <==> CodePoint(s) <= 0x1F || 0x7F <= CodePoint(s) <= 0x9F
  {
  }

  predicate HasControl(s: Bytes) {
    s != [] && Width(s) != 0 && (StartsWithControl(s) || HasControl(s[Width(s)..]))
  }

  /** Without its leading spaces, and without its trailing spaces. */
  function TrimLeft(s: Bytes): (r: Bytes) {
    if s != [] && s[0] == SPACE then TrimLeft(s[1..]) else s
  }

  function TrimRight(s: Bytes): (r: Bytes)
    ensures r <= s
  {
    if s != [] && s[|s| - 1] == SPACE then TrimRight(s[..|s| - 1]) else s
  }

  function NormalizedKey(raw: Bytes): (r: Result<Bytes>) {
    if !Valid(raw) || HasControl(raw) then Failure(InvalidArgument)
    else
      var key := TrimRight(TrimLeft(raw));
      if 1 <= |key| <= IDEMPOTENCY_KEY_MAX_LENGTH then Success(key) else Failure(InvalidArgument)
  }

  method FindControl(raw: Bytes) returns (found: bool)
    requires Valid(raw)
    ensures found == HasControl(raw)
  {
    hide Width, StartsWithControl;
    var at := 0;
    assert raw[0..] == raw;
    while at < |raw|
      invariant at <= |raw| && Valid(raw[at..]) && HasControl(raw) == HasControl(raw[at..])
    {
      if StartsWithControl(raw[at..]) {
        return true;
      }
      var width := Width(raw[at..]);
      assert raw[at..][width..] == raw[at + width..];
      at := at + width;
    }
    return false;
  }

  method TrimSpaces(raw: Bytes) returns (key: Bytes)
    ensures key == TrimRight(TrimLeft(raw))
  {
    var start, end := 0, |raw|;
    assert raw[0..] == raw;
    while start < end && raw[start] == SPACE
      invariant start <= end && TrimLeft(raw) == TrimLeft(raw[start..])
    {
      assert raw[start..][1..] == raw[start + 1..];
      start := start + 1;
    }
    assert raw[start..end] == raw[start..] && TrimLeft(raw) == raw[start..];
    while start < end && raw[end - 1] == SPACE
      invariant start <= end <= |raw| && TrimRight(TrimLeft(raw)) == TrimRight(raw[start..end])
    {
      assert raw[start..end][..end - 1 - start] == raw[start..end - 1];
      end := end - 1;
    }
    return raw[start..end];
  }

  method NormalizeKey(raw: Bytes) returns (r: Result<Bytes>)
    ensures r == NormalizedKey(raw)
  {
    if !Valid(raw) {
      return Failure(InvalidArgument);
    }
    var control := FindControl(raw);
    if control {
      return Failure(InvalidArgument);
    }
    var key := TrimSpaces(raw);
    if |key| < 1 || IDEMPOTENCY_KEY_MAX_LENGTH < |key| {
      return Failure(InvalidArgument);
    }
    return Success(key);
  }

  // ---------------------------------------------------------------- keys that are one

  predicate Spaces(s: Bytes) {
    forall i :: 0 <= i < |s| ==> s[i] == SPACE
  }

  /** A key that neither starts nor ends with a space. */
  predicate Trimmed(s: Bytes) {
    s != [] ==> s[0] != SPACE && s[|s| - 1] != SPACE
  }

  lemma {:induction false} SpacesAreValid(s: Bytes, t: Bytes)
    requires Spaces(s)
    ensures Valid(s + t) <==> Valid(t)
    ensures Valid(t) ==> (HasControl(s + t) <==> HasControl(t))
    ensures TrimLeft(s + t) == TrimLeft(t)
    decreases |s|
  {
    if s == [] {
      assert s + t == t;
    } else {
      assert (s + t)[1..] == s[1..] + t;
      assert Width(s + t) == 1;
      SpacesAreValid(s[1..], t);
    }
  }

  lemma {:induction false} ControlOfConcat(a: Bytes, b: Bytes)
    requires Valid(a) && Valid(b)
    ensures HasControl(a + b) <==> HasControl(a) || HasControl(b)
    decreases |a|
  {
    if a == [] {
      assert a + b == b;
    } else {
      var w := Width(a);
      WidthIsLocal(a, a + b);
      assert (a + b)[w..] == a[w..] + b;
      ControlOfConcat(a[w..], b);
    }
  }

  lemma {:induction false} SpacesHaveNoControl(s: Bytes)
    requires Spaces(s)
    ensures Valid(s) && !HasControl(s) && TrimRight(s) == []
    decreases |s|
  {
    if s != [] {
      assert Width(s) == 1;
      SpacesHaveNoControl(s[1..]);
      SpacesHaveNoControl(s[..|s| - 1]);
    }
  }

  /** A space ends no longer rune, so spaces at the end leave validity as it is. */
  lemma {:induction false} TrailingSpaces(k: Bytes, q: Bytes)
    requires Spaces(q)
    ensures Valid(k + q) <==> Valid(k)
    ensures TrimRight(k + q) == TrimRight(k)
    decreases |q|
  {
    if q == [] {
      assert k + q == k;
    } else {
      var before := q[..|q| - 1];
      var s, t := k + q, k + before;
      assert s == t + [SPACE] && s[..|s| - 1] == t;
      TrailingSpaces(k, before);
      if Valid(s) {
        var j := LastRune(s);
        assert s[j..][|s| - 1 - j] == SPACE;
        assert j == |s| - 1;
      }
      if Valid(t) {
        assert Width([SPACE]) == 1 && Valid([SPACE]);
        ValidConcat(t, [SPACE]);
      }
    }
  }

  lemma TrimmedStays(k: Bytes)
    requires Trimmed(k)
    ensures TrimLeft(k) == k && TrimRight(k) == k
  {
  }

  /** A key is accepted exactly when what is left between the surrounding spaces is valid UTF-8
      of 1 to 255 bytes without control characters, and it is that; so all spellings that differ
      only in surrounding spaces are one key. */
  lemma NormalizesExactly(p: Bytes, k: Bytes, q: Bytes)
    requires Spaces(p) && Spaces(q) && Trimmed(k)
    ensures NormalizedKey(p + k + q)
         == if Valid(k) && !HasControl(k) && 1 <= |k| <= IDEMPOTENCY_KEY_MAX_LENGTH then Success(k)
            else Failure(InvalidArgument)
  {
    hide Width, Valid, HasControl, TrimLeft, TrimRight;
    assert p + k + q == p + (k + q);
    SpacesAreValid(p, k + q);
    TrailingSpaces(k, q);
    TrimmedStays(k);
    SpacesHaveNoControl(q);
    if Valid(k) {
      ControlOfConcat(k, q);
    }
    if k == [] {
      SpacesTrimmed(q);
      assert k + q == q;
    } else {
      StartsTrimmed(k, q);
    }
  }

  lemma {:induction false} SpacesTrimmed(q: Bytes)
    requires Spaces(q)
    ensures TrimLeft(q) == []
    decreases |q|
  {
    if q != [] {
      SpacesTrimmed(q[1..]);
    }
  }

  lemma StartsTrimmed(k: Bytes, q: Bytes)
    requires Trimmed(k) && k != []
    ensures TrimLeft(k + q) == k + q
  {
  }

  /** Normalizing a normalized key changes nothing. */
  lemma NormalizingAgain(raw: Bytes)
    requires NormalizedKey(raw).Success?
    ensures NormalizedKey(NormalizedKey(raw).value) == NormalizedKey(raw)
  {
    hide Width, Valid, HasControl, TrimLeft, TrimRight;
    var p, k, q := SplitSpaces(raw);
    NormalizesExactly(p, k, q);
    NormalizesExactly([], k, []);
    assert [] + k + [] == k;
  }

  lemma {:induction false} SplitSpaces(raw: Bytes) returns (p: Bytes, k: Bytes, q: Bytes)
    ensures raw == p + k + q && Spaces(p) && Trimmed(k) && Spaces(q)
    decreases |raw|
  {
    if raw != [] && raw[0] == SPACE {
      p, k, q := SplitSpaces(raw[1..]);
      p := [SPACE] + p;
      assert raw == [SPACE] + raw[1..];
    } else if raw != [] && raw[|raw| - 1] == SPACE {
      p, k, q := SplitSpaces(raw[..|raw| - 1]);
      q := q + [SPACE];
      assert raw == raw[..|raw| - 1] + [SPACE];
    } else {
      p, k, q := [], raw, [];
    }
  }

  // ---------------------------------------------------------------- legacy identities

  /** An operation and request hash as the older implementation wrote them. */
  datatype LegacyIdentity = LegacyIdentity(operation: string, requestHash: string)

  predicate LowerHex(c: char) {
    '0' <= c <= '9' || 'a' <= c <= 'f'
  }

  predicate WellFormed(identity: LegacyIdentity) {
    identity.operation != "" && |identity.requestHash| == 64
    && forall i :: 0 <= i < 64 ==> LowerHex(identity.requestHash[i])
  }

  /** No operation comes with two hashes. */
  predicate Consistent(identities: seq<LegacyIdentity>) {
    forall i, k :: 0 <= i < k < |identities| && identities[i].operation == identities[k].operation ==>
      identities[i].requestHash == identities[k].requestHash
  }

  predicate Acceptable(identities: seq<LegacyIdentity>) {
    identities != [] && Consistent(identities) && forall i :: 0 <= i < |identities| ==> WellFormed(identities[i])
  }

  /** Identities are accepted when there are some, each names an operation and a hash of 64 lower-case
      hexadecimal digits, and no operation is named with two hashes. */
  lemma AcceptsExactly(identities: seq<LegacyIdentity>)
    ensures Acceptable(identities) <==>
              && 1 <= |identities|
              && (forall x :: x in identities ==>
                    x.operation != "" && |x.requestHash| == 64 && forall c :: c in x.requestHash ==> c in "0123456789abcdef")
              && (forall x, y :: x in identities && y in identities && x.operation == y.operation ==> x == y)
  {
    assert forall c: char :: c in "0123456789abcdef" <==> LowerHex(c) by { DigitsExactly(); }
    forall i, k | 0 <= i < |identities| && 0 <= k < |identities| && identities[i].operation == identities[k].operation
                  && Consistent(identities)
      ensures identities[i] == identities[k]
    {
    }
    if forall x, y :: x in identities && y in identities && x.operation == y.operation ==> x == y {
      assert Consistent(identities);
    }
  }

  lemma DigitsExactly()
    ensures forall c: char :: c in "0123456789abcdef" <==> LowerHex(c)
  {
    forall c: char | LowerHex(c) ensures c in "0123456789abcdef" {
      var digits := "0123456789abcdef";
      assert digits[if c <= '9' then c as int - '0' as int else c as int - 'a' as int + 10] == c;
    }
  }

  class LegacyIdentities {
    var stored: map<string, string>   // of one command: operation to request hash

    constructor ()
      ensures stored == map[]
    {
      stored := map[];
    }

    /** Records the identities of a command. A fresh command forgets those of an expired one; a
        replay only adds operations and never changes the hash of one. What is not acceptable is
        refused, and its transaction leaves everything as it was. */
    method SyncLegacyIdentities(freshReservation: bool, identities: seq<LegacyIdentity>) returns (code: Code)
      modifies this
      ensures code == if Acceptable(identities) then OK else Internal
      ensures code != OK ==> stored == old(stored)
      ensures code == OK ==>
                var kept := if freshReservation then map[] else old(stored);
                && (forall op :: op in stored <==> op in kept || exists i :: 0 <= i < |identities| && identities[i].operation == op)
                && (forall op :: op in kept ==> stored[op] == kept[op])
                && (forall i :: 0 <= i < |identities| && identities[i].operation !in kept ==>
                      stored[identities[i].operation] == identities[i].requestHash)
    {
      hide WellFormed;
      if |identities| == 0 {
        return Internal;
      }
      var before := stored;
      ghost var kept := if freshReservation then map[] else stored;
      if freshReservation {
        stored := map[];
      }
      var seen: map<string, string> := map[];
      for i := 0 to |identities|
        invariant forall op :: op in seen <==> exists k :: 0 <= k < i && identities[k].operation == op
        invariant forall k :: 0 <= k < i ==> WellFormed(identities[k]) && seen[identities[k].operation] == identities[k].requestHash
        invariant forall op :: op in stored <==> op in kept || op in seen
        invariant forall op :: op in stored ==> stored[op] == if op in kept then kept[op] else seen[op]
      {
        var identity := identities[i];
        if !WellFormed(identity) {
          stored := before;
          return Internal;
        }
        if identity.operation in seen {
          if seen[identity.operation] != identity.requestHash {
            stored := before;
            return Internal;
          }
          continue;
        }
        seen := seen[identity.operation := identity.requestHash];
        if identity.operation !in stored {
          stored := stored[identity.operation := identity.requestHash];
        }
      }
      return OK;
    }
  }
}
