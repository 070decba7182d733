/** Small shared vocabulary: an optional value, and the joining of strings. */
module Basics {

  datatype Option<+T> = None | Some(value: T)

  /** Python's `sep.join(parts)`. */
  function Join(sep: string, parts: seq<string>): string {
    if |parts| == 0 then ""
    else if |parts| == 1 then parts[0]
    else parts[0] + sep + Join(sep, parts[1..])
  }

  /** Where part `k` begins, when `gap` characters stand between any two: the lengths of the parts before
      it, and a gap after each. */
  ghost function Offset(parts: seq<string>, k: nat, gap: nat): nat
    requires k <= |parts|
  {
    if k == 0 then 0 else |parts[0]| + gap + Offset(parts[1..], k - 1, gap)
  }

  /** From `start` on, `text` is the parts in order, each at its offset, with `sep` between any two. */
  ghost predicate Laid(text: string, start: nat, parts: seq<string>, sep: string) {
    && |text| + |sep| == start + Offset(parts, |parts|, |sep|)
    && (forall k | 0 <= k < |parts| ::
          start + Offset(parts, k, |sep|) <= |text| && parts[k] <= text[start + Offset(parts, k, |sep|)..])
    && (forall k | 0 <= k < |parts| - 1 ::
          start + Offset(parts, k, |sep|) + |parts[k]| <= |text|
          && sep <= text[start + Offset(parts, k, |sep|) + |parts[k]|..])
  }

  lemma {:induction false} OffsetStep(parts: seq<string>, k: nat, gap: nat)
    requires k < |parts|
    ensures Offset(parts, k + 1, gap) == Offset(parts, k, gap) + |parts[k]| + gap
  {
    if k == 0 {
    } else {
      OffsetStep(parts[1..], k - 1, gap);
    }
  }

  lemma {:induction false} JoinLaid(head: string, sep: string, parts: seq<string>)
    requires parts != []
    ensures Laid(head + Join(sep, parts), |head|, parts, sep)
    decreases |parts|
  {
    if |parts| == 1 {
      LaidAlone(head, parts, sep);
    } else {
      JoinLaid(head + parts[0] + sep, sep, parts[1..]);
      JoinHead(head, sep, parts);
      LaidOn(head + Join(sep, parts), |head|, parts, sep);
    }
  }

  lemma LaidAlone(head: string, parts: seq<string>, sep: string)
    requires |parts| == 1
    ensures Laid(head + parts[0], |head|, parts, sep)
  {
    OffsetStep(parts, 0, |sep|);
    assert (head + parts[0])[|head|..] == parts[0];
  }

  lemma JoinHead(head: string, sep: string, parts: seq<string>)
    requires |parts| > 1
    ensures head + Join(sep, parts) == head + parts[0] + sep + Join(sep, parts[1..])
    ensures parts[0] + sep <= (head + Join(sep, parts))[|head|..]
  {
    var text := head + Join(sep, parts);
    assert text == head + parts[0] + sep + Join(sep, parts[1..]);
    assert text[|head|..] == parts[0] + sep + Join(sep, parts[1..]);
  }

  /** The first part, the separator, and the rest laid out behind them. */
  lemma LaidOn(text: string, start: nat, parts: seq<string>, sep: string)
    requires |parts| > 1 && start + |parts[0]| + |sep| <= |text|
    requires parts[0] + sep <= text[start..]
    requires Laid(text, start + |parts[0]| + |sep|, parts[1..], sep)
    ensures Laid(text, start, parts, sep)
  {
    var rest, start' := parts[1..], start + |parts[0]| + |sep|;
    forall k | 0 <= k < |parts|
      ensures start + Offset(parts, k, |sep|) <= |text| && parts[k] <= text[start + Offset(parts, k, |sep|)..]
    {
      if k > 0 {
        assert parts[k] == rest[k - 1] && start' + Offset(rest, k - 1, |sep|) == start + Offset(parts, k, |sep|);
      }
    }
    forall k | 0 <= k < |parts| - 1
      ensures start + Offset(parts, k, |sep|) + |parts[k]| <= |text|
      ensures sep <= text[start + Offset(parts, k, |sep|) + |parts[k]|..]
    {
      if k == 0 {
        assert text[start + |parts[0]|..] == text[start..][|parts[0]|..];
      } else {
        assert parts[k] == rest[k - 1] && start' + Offset(rest, k - 1, |sep|) == start + Offset(parts, k, |sep|);
      }
    }
  }
}
