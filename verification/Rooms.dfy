/** Room keys: the names of broadcast rooms, and the prefix and suffix test that selects an organisation's rooms. */
module Rooms {
  import opened Text

  /** A uuid is represented by its canonical 36-character text, which is what the code puts into room keys. */
  predicate IsUuid(s: string) {
    && |s| == 36
    && forall i :: 0 <= i < 36 ==>
         if i == 8 || i == 13 || i == 18 || i == 23 then s[i] == '-' else IsDigit(s[i]) || 'a' <= s[i] <= 'f'
  }

  function NilText(): (s: string)
    ensures IsUuid(s)
  {
    seq(36, i => if i == 8 || i == 13 || i == 18 || i == 23 then '-' else '0')
  }

  type Uuid = s: string | IsUuid(s) witness NilText()

  const NIL: Uuid := NilText()

  type Room = string

  const DEFAULT_CHANNEL := "events"
  const PAYMENTS_CHANNEL := "payments"

  /** ^[a-zA-Z0-9_-]{1,64}$ */
  predicate ChannelName(s: string) {
    1 <= |s| <= 64 && forall i :: 0 <= i < |s| ==> IsDigit(s[i]) || IsUpper(s[i]) || IsLower(s[i]) || s[i] == '_' || s[i] == '-'
  }

  /** Letters, digits, underscores and hyphens, at least one and at most 64 of them. */
  lemma ChannelNameIff(s: string)
    ensures ChannelName(s) <==>
              s != "" && |s| < 65
              && forall i :: 0 <= i < |s| ==> s[i] in CAPITALS || s[i] in SMALL || s[i] in "0123456789_-"
  {
    forall i | 0 <= i < |s|
      ensures s[i] in CAPITALS <==> IsUpper(s[i])
      ensures s[i] in SMALL <==> IsLower(s[i])
    {
      Caseless(s[i]);
    }
  }

  function OrgRoom(org: Uuid, app: Uuid, channel: string): Room { "org:" + org + ":app:" + app + ":channel:" + channel }

  function UserRoom(user: Uuid, channel: string): Room { "user:" + user + ":channel:" + channel }

  function BuildRoomKey(org: Uuid, app: Uuid, channel: string): Option<Room> {
    var trimmed := TrimSpace(channel);
    var name := if trimmed == "" then DEFAULT_CHANNEL else trimmed;
    if ChannelName(name) then Some(OrgRoom(org, app, name)) else None
  }

  function BuildUserRoomKey(user: Uuid, channel: string): Option<Room> {
    if user == NIL then None
    else
      var trimmed := TrimSpace(channel);
      var name := if trimmed == "" then PAYMENTS_CHANNEL else trimmed;
      if ChannelName(name) then Some(UserRoom(user, name)) else None
  }

  /** The payments room of a user that is not nil. */
  function PaymentsRoom(user: Uuid): Room { UserRoom(user, PAYMENTS_CHANNEL) }

  lemma ConstantRooms(org: Uuid, app: Uuid, user: Uuid)
    ensures BuildUserRoomKey(user, PAYMENTS_CHANNEL) == if user == NIL then None else Some(PaymentsRoom(user))
    ensures BuildRoomKey(org, app, DEFAULT_CHANNEL) == Some(OrgRoom(org, app, DEFAULT_CHANNEL))
  {
    TrimmedIsFixed(PAYMENTS_CHANNEL);
    TrimmedIsFixed(DEFAULT_CHANNEL);
  }

  lemma UserRoomInjective(u: Uuid, v: Uuid, c: string, d: string)
    requires UserRoom(u, c) == UserRoom(v, d)
    ensures u == v && c == d
  {
    var r := UserRoom(u, c);
    assert r[5..41] == u && UserRoom(v, d)[5..41] == v;
    assert r[50..] == c && UserRoom(v, d)[50..] == d;
  }

  lemma OrgRoomInjective(o: Uuid, a: Uuid, c: string, p: Uuid, b: Uuid, d: string)
    requires OrgRoom(o, a, c) == OrgRoom(p, b, d)
    ensures o == p && a == b && c == d
  {
    assert OrgRoom(o, a, c)[4..40] == o && OrgRoom(p, b, d)[4..40] == p;
    assert OrgRoom(o, a, c)[45..81] == a && OrgRoom(p, b, d)[45..81] == b;
    assert OrgRoom(o, a, c)[90..] == c && OrgRoom(p, b, d)[90..] == d;
  }

  lemma UserIsNotOrg(u: Uuid, c: string, o: Uuid, a: Uuid, d: string)
    ensures UserRoom(u, c) != OrgRoom(o, a, d)
  {
    assert UserRoom(u, c)[0] == 'u' && OrgRoom(o, a, d)[0] == 'o';
  }

  /** The test BroadcastToOrganization applies to every room key. */
  predicate InOrganization(key: Room, org: Uuid, channel: string) {
    var prefix, suffix := "org:" + org + ":app:", ":channel:" + channel;
    && |key| > |prefix| + |suffix|
    && key[..|prefix|] == prefix
    && key[|key| - |suffix|..] == suffix
  }

  predicate NoColon(s: string) { forall i :: 0 <= i < |s| ==> s[i] != ':' }

  /** A key ends in a channel suffix only if that is its own channel, provided neither name has a colon. */
  lemma SuffixDecides(front: string, c: string, d: string)
    requires NoColon(c) && NoColon(d)
    ensures var key, suffix := front + ":channel:" + c, ":channel:" + d;
            |key| >= |suffix| ==> (key[|key| - |suffix|..] == suffix <==> c == d)
  {
    var key, suffix := front + ":channel:" + c, ":channel:" + d;
    var n := |key|;
    assert key[n - |c| - 1] == ':' && suffix[8] == ':';
    if |key| >= |suffix| {
      var tail := key[n - |suffix|..];
      if |d| < |c| {
        assert tail[8] == c[|c| - |d| - 1];
        assert tail[8] != suffix[8];
      } else if |d| > |c| {
        var k := 8 + |d| - |c|;
        assert tail[k] == key[n - |c| - 1] && suffix[k] == d[|d| - |c| - 1];
        assert tail[k] != suffix[k];
      } else {
        assert tail == ":channel:" + c;
        assert tail[9..] == c && suffix[9..] == d;
      }
    }
  }

  /** Over the keys the hub stores, the test selects exactly the rooms of that organisation and channel. */
  lemma SelectsOrganization(org: Uuid, channel: string, o: Uuid, a: Uuid, c: string)
    requires NoColon(channel) && ChannelName(c)
    ensures InOrganization(OrgRoom(o, a, c), org, channel) <==> o == org && c == channel
    ensures !InOrganization(UserRoom(a, c), org, channel)
  {
    var key, prefix := OrgRoom(o, a, c), "org:" + org + ":app:";
    assert |prefix| == 45;
    assert key[..45] == "org:" + o + ":app:";
    assert ("org:" + o + ":app:")[4..40] == o && prefix[4..40] == org;
    var front := "org:" + o + ":app:" + a;
    assert key == front + ":channel:" + c;
    assert NoColon(c);
    SuffixDecides(front, c, channel);
    assert UserRoom(a, c)[0] == 'u';
  }
}
