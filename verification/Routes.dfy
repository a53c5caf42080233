/** The chat history route: slicing the chat id out of the request target. */
module Routes {
  import opened Machine

  const PREFIX: string := "/chat/"
  const SUFFIX: string := "/messages"

  predicate EndsWith(s: string, suffix: string) {
    |suffix| <= |s| && s[|s| - |suffix|..] == suffix
  }

  /** The guard of the branch. */
  predicate IsHistory(target: string) {
    PREFIX <= target && EndsWith(target, SUFFIX)
  }

  /** `std::string::substr` for a position inside the string. */
  function Substr(s: string, pos: nat, count: nat): string
    requires pos <= |s|
  {
    if count < |s| - pos then s[pos..pos + count] else s[pos..]
  }

  /** The length is computed in unsigned 64-bit arithmetic. */
  function ChatId(target: string): string
    requires IsHistory(target)
  {
    Substr(target, 6, Wrap(|target| - 6 - 9))
  }

  lemma OverlapIsShort(target: string)
    requires IsHistory(target) && |target| < 15
    ensures |target| == 14
  {
    var d := |target| - 9;
    assert PREFIX == ['/', 'c', 'h', 'a', 't', '/'];
    assert target[d + 1] == target[d..][1] == 'm';
    assert forall i | 0 <= i < 6 :: target[i] == PREFIX[i];
  }

  lemma OverlapIsUnique(target: string)
    requires IsHistory(target) && |target| < 15
    ensures target == "/chat/messages"
  {
    OverlapIsShort(target);
    assert target == target[..5] + target[5..];
    assert target[..5] == PREFIX[..5] == "/chat";
    assert "/chat" + SUFFIX == "/chat/messages";
  }

  /** Every target that passes the guard is either `/chat/{id}/messages`, and then exactly `id` is sliced
      out, or the one target in which prefix and suffix overlap; there the length wraps and "messages" is
      taken for the id. */
  lemma ChatIdExactly(target: string)
    requires IsHistory(target) && |target| < TWO_64
    ensures target == "/chat/messages" || target == PREFIX + ChatId(target) + SUFFIX
    ensures target == "/chat/messages" ==> ChatId(target) == "messages"
    ensures target == "/chat/messages" ==> forall id :: target != PREFIX + id + SUFFIX
  {
    if |target| < 15 {
      OverlapIsUnique(target);
    }
  }

  /** The route and its slicing are inverse to building the target. */
  lemma ChatIdRoundTrip(id: string)
    requires |id| + 15 < TWO_64
    ensures IsHistory(PREFIX + id + SUFFIX) && ChatId(PREFIX + id + SUFFIX) == id
  {
    var target := PREFIX + id + SUFFIX;
    assert target[|target| - 9..] == SUFFIX;
    assert target[6..6 + |id|] == id;
  }
}
