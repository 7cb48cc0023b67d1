/** WhatsApp chat ids: a phone number followed by the `@c.us` suffix. Inbound
    messages carry a chat id, from which the phone number is recovered by
    removing the first `@c.us`; the manual send endpoint turns a phone number
    into a chat id by appending the suffix unless it is already there. */
module ChatId {
  import opened JsStrings

  const Suffix: string := "@c.us"

  /** `from.replace('@c.us', '')`: the sender's phone number. A sender id
      without the suffix is taken as it is; otherwise its first suffix, and
      only that one, is removed. */
  function PhoneOf(from: string): (phone: string)
    ensures !Includes(from, Suffix) ==> phone == from
    ensures Includes(from, Suffix) ==>
      var i := IndexOf(from, Suffix).value;
      phone == from[..i] + from[i + |Suffix|..]
    ensures Includes(from, Suffix) ==> |phone| == |from| - |Suffix|
  {
    ReplaceFirst(from, Suffix, "")
  }

  /** `phone.includes('@c.us') ? phone : phone + '@c.us'`. The result always
      carries the suffix, and a phone number that already does is used as
      it is. */
  function ToChatId(phone: string): (id: string)
    ensures Includes(id, Suffix)
    ensures Includes(phone, Suffix) ==> id == phone
    ensures !Includes(phone, Suffix) ==> id == phone + Suffix
  {
    if Includes(phone, Suffix) then phone
    else
      assert OccursAt(phone + Suffix, Suffix, |phone|);
      phone + Suffix
  }

  /** Turning a phone number into a chat id twice changes nothing more. */
  lemma ToChatIdIdempotent(phone: string)
    ensures ToChatId(ToChatId(phone)) == ToChatId(phone)
  {
  }

  /** No occurrence of `@c.us` can overlap the end of a string that lacks it
      and the suffix appended to it, because `@` occurs in the suffix only in
      its first position. */
  lemma FirstSuffixIsAppended(phone: string)
    requires !Includes(phone, Suffix)
    ensures IndexOf(phone + Suffix, Suffix) == Some(|phone|)
  {
    var s := phone + Suffix;
    assert OccursAt(s, Suffix, |phone|);
    forall j | 0 <= j < |phone|
      ensures !OccursAt(s, Suffix, j)
    {
      if j + |Suffix| <= |phone| {
        assert s[j..j + |Suffix|] == phone[j..j + |Suffix|];
        assert !OccursAt(phone, Suffix, j);
      } else {
        var k := |phone| - j;
        assert 1 <= k < |Suffix|;
        assert s[|phone|] == '@';
        assert Suffix[k] != '@';
        assert j + |Suffix| <= |s| ==> s[j..j + |Suffix|][k] == s[|phone|];
      }
    }
  }

  /** Round trip from a phone number: the phone number recovered from the
      chat id it is sent to is the phone number itself. */
  lemma PhoneOfToChatId(phone: string)
    requires !Includes(phone, Suffix)
    ensures PhoneOf(ToChatId(phone)) == phone
  {
    FirstSuffixIsAppended(phone);
    var s := phone + Suffix;
    assert s[..|phone|] == phone;
    assert s[|phone| + |Suffix|..] == [];
  }

  /** Round trip from a chat id: a chat id made of a phone number and the
      suffix is rebuilt from the phone number recovered from it. */
  lemma ToChatIdOfPhoneOf(phone: string)
    requires !Includes(phone, Suffix)
    ensures ToChatId(PhoneOf(phone + Suffix)) == phone + Suffix
  {
    PhoneOfToChatId(phone);
  }
}
