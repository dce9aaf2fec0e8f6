/** The composite key is text: sender, a NUL, operation id. */
module DedupeKeys {
  const NUL: char := '\0'

  function MakeDedupeKey(sender: string, operationId: string): string {
    sender + [NUL] + operationId
  }

  /** Ids without a NUL in the sender part never share a key, so the pair of ids may stand for the key. */
  lemma {:induction false} KeysAreInjective(sender: string, operationId: string, sender': string, operationId': string)
    requires NUL !in sender && NUL !in sender'
    ensures MakeDedupeKey(sender, operationId) == MakeDedupeKey(sender', operationId')
            <==> sender == sender' && operationId == operationId'
  {
    var k, k' := MakeDedupeKey(sender, operationId), MakeDedupeKey(sender', operationId');
    if k == k' {
      assert k[|sender|] == NUL && k'[|sender'|] == NUL;
      assert forall i | 0 <= i < |sender| :: k[i] == sender[i] && sender[i] in sender;
      assert forall i | 0 <= i < |sender'| :: k'[i] == sender'[i] && sender'[i] in sender';
      assert |sender| == |sender'|;
      assert sender == k[..|sender|] && sender' == k'[..|sender|];
      assert operationId == k[|sender| + 1..] && operationId' == k'[|sender| + 1..];
    }
  }

  /** With a NUL in the sender two different pairs do share a key: any operation id can be cut anywhere. */
  lemma NulBreaksInjectivity(sender: string, middle: string, operationId: string)
    ensures MakeDedupeKey(sender, middle + [NUL] + operationId) == MakeDedupeKey(sender + [NUL] + middle, operationId)
  {
    assert MakeDedupeKey(sender, middle + [NUL] + operationId) == sender + [NUL] + middle + [NUL] + operationId;
  }
}
