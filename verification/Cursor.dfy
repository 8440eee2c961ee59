/** Pagination cursors: a JSON payload in unpadded base64url (section 5 of RFC 4648). */
module Cursor {
  import opened Common
  import opened KeyOrder

  type Byte = x: int | 0 <= x < 256

  function Letter(sextet: int): (c: char)
    requires 0 <= sextet < 64
    ensures c != '='
  {
    if sextet < 26 then ('A' as int + sextet) as char
    else if sextet < 52 then ('a' as int + sextet - 26) as char
    else if sextet < 62 then ('0' as int + sextet - 52) as char
    else if sextet == 62 then '-' else '_'
  }

  function Sextet(c: char): (r: Option<int>)
    ensures r.Some? ==> 0 <= r.value < 64
  {
    if 'A' <= c <= 'Z' then Some(c as int - 'A' as int)
    else if 'a' <= c <= 'z' then Some(c as int - 'a' as int + 26)
    else if '0' <= c <= '9' then Some(c as int - '0' as int + 52)
    else if c == '-' then Some(62)
    else if c == '_' then Some(63)
    else None
  }

  lemma SextetOfLetter(n: int)
    requires 0 <= n < 64
    ensures Sextet(Letter(n)) == Some(n)
  {
  }

  /** The four letters of three bytes. */
  function Quad(x: Byte, y: Byte, z: Byte): (r: string)
    ensures |r| == 4 && forall i :: 0 <= i < 4 ==> r[i] != '='
  {
    [Letter(x / 4), Letter(x % 4 * 16 + y / 16), Letter(y % 16 * 4 + z / 64), Letter(z % 64)]
  }

  /** base64.urlsafe_b64encode: a last group of one or two bytes is filled up with padding. */
  function Encode(bytes: seq<Byte>): string
  {
    if bytes == [] then ""
    else if |bytes| == 1 then Quad(bytes[0], 0, 0)[..2] + "=="
    else if |bytes| == 2 then Quad(bytes[0], bytes[1], 0)[..3] + "="
    else Quad(bytes[0], bytes[1], bytes[2]) + Encode(bytes[3..])
  }

  /** str.rstrip("=") */
  function StripPadding(s: string): string
  {
    if s != "" && s[|s| - 1] == '=' then StripPadding(s[..|s| - 1]) else s
  }

  /** `value + "=" * (-len(value) % 4)`, where the remainder is never negative. */
  function Pad(value: string): string
  {
    value + seq(-|value| % 4, i => '=')
  }

  /** base64.urlsafe_b64decode of a text over the alphabet; bits beyond the last byte are ignored. */
  function Decode(s: string): Option<seq<Byte>>
  {
    if s == "" then Some([])
    else if |s| < 4 || Sextet(s[0]).None? || Sextet(s[1]).None? then None
    else
      var a, b := Sextet(s[0]).value, Sextet(s[1]).value;
      if s[2..] == "==" then Some([a * 4 + b / 16])
      else if Sextet(s[2]).None? then None
      else
        var c := Sextet(s[2]).value;
        if s[3..] == "=" then Some([a * 4 + b / 16, b % 16 * 16 + c / 4])
        else if Sextet(s[3]).None? then None
        else match Decode(s[4..])
          case None => None
          case Some(rest) => Some([a * 4 + b / 16, b % 16 * 16 + c / 4, c % 4 * 64 + Sextet(s[3]).value] + rest)
  }

  lemma SextetsOfQuad(x: Byte, y: Byte, z: Byte)
    ensures var q := Quad(x, y, z);
      && Sextet(q[0]) == Some(x / 4)
      && Sextet(q[1]) == Some(x % 4 * 16 + y / 16)
      && Sextet(q[2]) == Some(y % 16 * 4 + z / 64)
      && Sextet(q[3]) == Some(z % 64)
    ensures x / 4 * 4 + (x % 4 * 16 + y / 16) / 16 == x
    ensures (x % 4 * 16 + y / 16) % 16 * 16 + (y % 16 * 4 + z / 64) / 4 == y
    ensures (y % 16 * 4 + z / 64) % 4 * 64 + z % 64 == z
  {
    SextetOfLetter(x / 4);
    SextetOfLetter(x % 4 * 16 + y / 16);
    SextetOfLetter(y % 16 * 4 + z / 64);
    SextetOfLetter(z % 64);
  }

  lemma DecodeQuad(x: Byte, y: Byte, z: Byte, tail: string)
    ensures Decode(Quad(x, y, z) + tail) ==
      match Decode(tail) { case None => None case Some(rest) => Some([x, y, z] + rest) }
  {
    SextetsOfQuad(x, y, z);
    var s := Quad(x, y, z) + tail;
    assert s[0] == Quad(x, y, z)[0] && s[1] == Quad(x, y, z)[1] && s[2] == Quad(x, y, z)[2] && s[3] == Quad(x, y, z)[3];
    assert s[2..][0] != '=' && s[3..][0] != '=';
    assert s[4..] == tail;
  }

  lemma DecodeLastGroup(x: Byte, y: Byte)
    ensures Decode(Quad(x, 0, 0)[..2] + "==") == Some([x])
    ensures Decode(Quad(x, y, 0)[..3] + "=") == Some([x, y])
  {
    SextetsOfQuad(x, 0, 0);
    SextetsOfQuad(x, y, 0);
    var one, two := Quad(x, 0, 0)[..2] + "==", Quad(x, y, 0)[..3] + "=";
    assert one[2..] == "==";
    assert two[2..][0] != '=' && two[3..] == "=";
  }

  lemma {:induction false} DecodeEncode(bytes: seq<Byte>)
    ensures Decode(Encode(bytes)) == Some(bytes)
  {
    if |bytes| >= 3 {
      DecodeQuad(bytes[0], bytes[1], bytes[2], Encode(bytes[3..]));
      DecodeEncode(bytes[3..]);
      assert bytes == [bytes[0], bytes[1], bytes[2]] + bytes[3..];
    } else if |bytes| == 2 {
      DecodeLastGroup(bytes[0], bytes[1]);
      assert bytes == [bytes[0], bytes[1]];
    } else if |bytes| == 1 {
      DecodeLastGroup(bytes[0], 0);
      assert bytes == [bytes[0]];
    }
  }

  /** How long the unpadded encoding of n bytes is: four letters per three bytes, rounded up. */
  function UnpaddedLength(n: nat): nat
  {
    (4 * n + 2) / 3
  }

  /** The encoding is its unpadded form followed by the padding its length calls for. */
  lemma {:induction false} PaddingIsRecoverable(bytes: seq<Byte>)
    ensures |StripPadding(Encode(bytes))| == UnpaddedLength(|bytes|)
    ensures Pad(StripPadding(Encode(bytes))) == Encode(bytes)
  {
    if |bytes| >= 3 {
      PaddingIsRecoverable(bytes[3..]);
      var head, tail := Quad(bytes[0], bytes[1], bytes[2]), Encode(bytes[3..]);
      StripAfterPrefix(head, tail);
      PadAfterQuad(head, StripPadding(tail));
    } else if |bytes| == 2 {
      var head := Quad(bytes[0], bytes[1], 0)[..3];
      StripShort(head);
    } else if |bytes| == 1 {
      var head := Quad(bytes[0], 0, 0)[..2];
      StripShort(head);
    }
  }

  lemma PadAfterQuad(head: string, tail: string)
    requires |head| == 4
    ensures Pad(head + tail) == head + Pad(tail)
  {
    assert -|head + tail| % 4 == -|tail| % 4;
  }

  lemma StripShort(head: string)
    requires 2 <= |head| <= 3 && head[|head| - 1] != '='
    ensures StripPadding(head + "=") == head && StripPadding(head + "==") == head
    ensures |head| == 3 ==> Pad(head) == head + "="
    ensures |head| == 2 ==> Pad(head) == head + "=="
  {
    assert (head + "=")[..|head|] == head;
    assert (head + "==")[..|head| + 1] == head + "=";
  }

  lemma {:induction false} StripAfterPrefix(head: string, tail: string)
    requires head != "" && head[|head| - 1] != '='
    ensures StripPadding(head + tail) == head + StripPadding(tail)
  {
    if tail == "" {
      assert head + tail == head;
    } else if tail[|tail| - 1] == '=' {
      assert (head + tail)[..|head + tail| - 1] == head + tail[..|tail| - 1];
      StripAfterPrefix(head, tail[..|tail| - 1]);
    }
  }

  // ----- encode_cursor and decode_cursor -----

  /** JSON text of the cursor payload and its reading back, both left abstract. */
  datatype Json = Json(dump: Key -> seq<Byte>, parse: seq<Byte> -> Option<Key>)

  datatype CursorError = InvalidCursor

  function EncodeCursor(json: Json, k: Key): string
  {
    StripPadding(Encode(json.dump(k)))
  }

  function DecodeCursor(json: Json, cursor: Option<string>): Result<Option<Key>, CursorError>
  {
    match cursor
    case None => Ok(None)
    case Some(value) =>
      match Decode(Pad(value))
      case None => Err(InvalidCursor)
      case Some(bytes) =>
        match json.parse(bytes)
        case None => Err(InvalidCursor)
        case Some(k) => if k.eventId == "" then Err(InvalidCursor) else Ok(Some(k))
  }

  const MAX_CURSOR_LENGTH := 1024

  /** The request model admits a cursor of 1 to 1024 characters. */
  predicate AdmittedCursor(cursor: Option<string>)
  {
    cursor.None? || 1 <= |cursor.value| <= MAX_CURSOR_LENGTH
  }

  /** The cursor for k comes back as k, when it is sent in the next request. */
  ghost predicate Resumable(json: Json, k: Key)
  {
    var cursor := Some(EncodeCursor(json, k));
    AdmittedCursor(cursor) && DecodeCursor(json, cursor) == Ok(Some(k))
  }

  /** A cursor survives the round trip exactly when its event id is not empty and its payload fits in 768 bytes. */
  lemma ResumableExact(json: Json, k: Key)
    requires json.parse(json.dump(k)) == Some(k)
    ensures Resumable(json, k) <==> k.eventId != "" && 1 <= |json.dump(k)| <= 768
  {
    DecodeEncode(json.dump(k));
    PaddingIsRecoverable(json.dump(k));
  }
}
