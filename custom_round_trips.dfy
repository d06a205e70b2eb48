/**
 * The binary client and the binary server agree: every request payload the
 * client packs is read back by the server's branch for that command as
 * exactly the fields the client packed, and the message frames the server
 * sends are read back by the client as the sender and the text.
 */
module CustomRoundTrips {
  import opened Wrappers
  import opened Bytes
  import opened ProtocolCustom
  import opened ClientCustom
  import opened ServerCustom

  /** Login and create payloads carry the username and the password. */
  lemma {:induction false} LoginRoundTrip(username: seq<byte>, password: seq<byte>)
    ensures PackLogin(username, password).Ok? <==> |username| <= 255 && |password| <= 255
    ensures PackLogin(username, password) == PackCreate(username, password)
    ensures PackLogin(username, password).Ok? ==>
      ParseTwoShort(PackLogin(username, password).value) == Ok((username, password))
  {
    if |username| <= 255 && |password| <= 255 {
      var a := PackShortString(username).value;
      var b := PackShortString(password).value;
      var p := a + b;
      assert PackLogin(username, password) == Ok(p);
      UnpackShortOfPacked([], username, b);
      assert [] + a + b == p;
      UnpackShortOfPacked(a, password, []);
      assert a + b + [] == p;
      assert UnpackShortString(p, 0) == Ok((username, |a|));
      assert UnpackShortString(p, |a|) == Ok((password, |p|));
    }
  }

  /** A view-conversation payload carries the two names. */
  lemma ViewConvRoundTrip(username: seq<byte>, otherUser: seq<byte>)
    ensures PackViewConv(username, otherUser).Ok? <==> |username| <= 255 && |otherUser| <= 255
    ensures PackViewConv(username, otherUser).Ok? ==>
      ParseTwoShort(PackViewConv(username, otherUser).value) == Ok((username, otherUser))
  {
    LoginRoundTrip(username, otherUser);
  }

  /** A send payload carries the sender, the recipient and the whole message. */
  lemma {:induction false} SendRoundTrip(sender: seq<byte>, recipient: seq<byte>, message: seq<byte>)
    ensures PackSend(sender, recipient, message).Ok? <==> |sender| <= 255 && |recipient| <= 255 && |message| <= 65535
    ensures PackSend(sender, recipient, message).Ok? ==>
      ParseSend(PackSend(sender, recipient, message).value) == Ok((sender, recipient, message))
  {
    if |sender| <= 255 && |recipient| <= 255 && |message| <= 65535 {
      var a := PackShortString(sender).value;
      var b := PackShortString(recipient).value;
      var c := PackLongString(message).value;
      UnpackShortOfPacked([], sender, b + c);
      assert [] + a + (b + c) == a + b + c;
      UnpackShortOfPacked(a, recipient, c);
      UnpackLongOfPacked(a + b, message, []);
      assert a + b + c + [] == a + b + c;
    }
  }

  /** A read payload carries the username and the limit. */
  lemma {:induction false} ReadRoundTrip(username: seq<byte>, limit: int)
    ensures PackRead(username, limit).Ok? ==> ParseRead(PackRead(username, limit).value) == Ok((username, limit as byte))
  {
    if PackRead(username, limit).Ok? {
      var a := PackShortString(username).value;
      UnpackShortOfPacked([], username, [limit as byte]);
      assert [] + a + [limit as byte] == PackRead(username, limit).value;
    }
  }

  /** A delete-messages payload carries the username and every index, in order. */
  lemma {:induction false} DeleteMsgRoundTrip(username: seq<byte>, indices: seq<int>)
    ensures DeleteMsgPayload(username, indices).Ok? ==>
      DeleteMsgRequest(DeleteMsgPayload(username, indices).value) == Ok((username, AsBytes(indices)))
  {
    if DeleteMsgPayload(username, indices).Ok? {
      var a := PackShortString(username).value;
      var tail := [|indices| as byte] + AsBytes(indices);
      var p := DeleteMsgPayload(username, indices).value;
      assert p == [] + a + tail;
      UnpackShortOfPacked([], username, tail);
      assert p[2 + |username|..2 + |username| + |indices|] == AsBytes(indices);
    }
  }

  /** Delete-account, log-off and close payloads are the username alone. */
  lemma ShortOnlyRoundTrip(username: seq<byte>)
    requires |username| <= 255
    ensures PackDeleteAcc(username).Ok? && PackLogoff(username).Ok? && PackClose(username).Ok?
    ensures UnpackShortString(PackDeleteAcc(username).value, 0) == Ok((username, 1 + |username|))
    ensures PackLogoff(username) == PackDeleteAcc(username) && PackClose(username) == PackDeleteAcc(username)
  {
    UnpackShortOfPacked([], username, []);
    assert [] + PackShortString(username).value + [] == PackShortString(username).value;
  }

  /** A pushed or read-out message frame gives the client back the sender and the text. */
  lemma {:induction false} MessagePayloadRoundTrip(m: Pending)
    requires MessagePayload(m).Some?
    ensures UnpackShortString(MessagePayload(m).value, 0) == Ok((m.0, 1 + |m.0|))
    ensures UnpackLongString(MessagePayload(m).value, 1 + |m.0|) == Ok((m.1, |MessagePayload(m).value|))
  {
    var a := PackShortString(m.0).value;
    var b := PackLongString(m.1).value;
    UnpackShortOfPacked([], m.0, b);
    assert [] + a + b == a + b;
    UnpackLongOfPacked(a, m.1, []);
    assert a + b + [] == a + b;
  }

  /**
   * Requests packed by the client, end to end: after `r` is sent a message
   * while offline, logging in reports one unread message, and reading with
   * limit 0 delivers it as one read frame followed by the end marker.
   */
  method OfflineDeliveryScenario(hash: seq<byte> -> seq<byte>, render: seq<ConvEntry> -> seq<byte>,
                                 u: Name, r: Name, pw: seq<byte>, msg: seq<byte>, t: string)
    returns (login: seq<Frame>, delivered: seq<Frame>)
    requires |u| <= 255 && |r| <= 255 && |pw| <= 255 && 3 + |u| + |msg| <= 65535
    ensures login == [ShortFrame(1, CMD_LOGIN, LOGIN_OK + DecimalBytes(1))]
    ensures MessagePayload((u, msg)).Some?
    ensures delivered == [Frame(1, CMD_READ, MessagePayload((u, msg)).value), LongFrame(1, CMD_READ, END_OF_MESSAGES)]
  {
    var s := Waiting(hash, render, u, r, pw, msg, t);
    LoginRoundTrip(r, pw);
    var st;
    st, login := s.Login(1, PackLogin(r, pw).value);
    ReadRoundTrip(r, 0);
    st, delivered := s.Read(1, PackRead(r, 0).value);
    MessageFramesInOrder(1, [(u, msg)]);
  }

  /** A fresh server where `r` has an account, is not logged in, and holds one message from `u`. */
  method Waiting(hash: seq<byte> -> seq<byte>, render: seq<ConvEntry> -> seq<byte>,
                 u: Name, r: Name, pw: seq<byte>, msg: seq<byte>, t: string)
    returns (s: CustomServer)
    requires |u| <= 255 && |r| <= 255 && |pw| <= 255 && |msg| <= 65535
    ensures fresh(s) && s.Valid() && s.hash == hash
    ensures r in s.users && s.users[r] == Account(hash(pw), [(u, msg)]) && r !in s.activeUsers
  {
    s := Registered(hash, render, u, r, pw);
    SendRoundTrip(u, r, msg);
    var _, _ := s.Send(0, PackSend(u, r, msg).value, t, false);
  }

  /** A fresh server where `u` and `r` have accounts with password `pw` and nobody is logged in. */
  method Registered(hash: seq<byte> -> seq<byte>, render: seq<ConvEntry> -> seq<byte>, u: Name, r: Name, pw: seq<byte>)
    returns (s: CustomServer)
    requires |u| <= 255 && |r| <= 255 && |pw| <= 255
    ensures fresh(s) && s.Valid() && s.hash == hash
    ensures r in s.users && s.users[r] == Account(hash(pw), []) && s.activeUsers == map[]
  {
    s := new CustomServer(hash, render);
    LoginRoundTrip(u, pw);
    LoginRoundTrip(r, pw);
    var _, _ := s.Create(0, PackCreate(u, pw).value);
    var _, _ := s.Create(1, PackCreate(r, pw).value);
  }
}
