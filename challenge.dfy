/**
 * The fixed-layout challenge record (`struct rma_challenge`) and the pure
 * helpers rma_create_challenge uses to fill it: the version/key-id byte and
 * hash_buffer, the self-keyed fingerprint of an over-long device id.
 */
module Challenge {
  import opened Bytes
  import opened Crypto

  /** Protocol version carried in the high nibble of the first record byte. */
  const RMA_CHALLENGE_VERSION: nat := 0

  const BOARD_ID_SIZE: nat := 4
  const DEVICE_ID_SIZE: nat := 8

  /** Field offsets: version/key id, ephemeral public key, board id, device id. */
  const PUB_KEY_OFFSET: nat := 1
  const BOARD_ID_OFFSET: nat := PUB_KEY_OFFSET + X25519_KEY_SIZE
  const DEVICE_ID_OFFSET: nat := BOARD_ID_OFFSET + BOARD_ID_SIZE

  /** sizeof(struct rma_challenge). */
  const RECORD_SIZE: nat := DEVICE_ID_OFFSET + DEVICE_ID_SIZE

  /** RMA_CHALLENGE_VKID_BYTE(version, key_id): version in the high nibble, key id in the low. */
  function VkidByte(version: nat, keyId: byte): (r: byte)
    requires version < 16
    ensures r as int / 16 == version
    ensures r as int % 16 == keyId as int % 16
  {
    (version * 16 + keyId as int % 16) as byte
  }

  /** The record's fields, in their order in memory. */
  datatype Record = Record(
    versionKeyId: byte,
    devicePubKey: seq<byte>,
    boardId: seq<byte>,
    deviceId: seq<byte>)

  predicate WellFormed(r: Record) {
    |r.devicePubKey| == X25519_KEY_SIZE && |r.boardId| == BOARD_ID_SIZE && |r.deviceId| == DEVICE_ID_SIZE
  }

  /** The bytes of the packed struct. */
  function Serialize(r: Record): (b: seq<byte>)
    ensures |b| == 1 + |r.devicePubKey| + |r.boardId| + |r.deviceId|
    ensures WellFormed(r) ==> |b| == RECORD_SIZE
    ensures b[0] == r.versionKeyId
  {
    [r.versionKeyId] + r.devicePubKey + r.boardId + r.deviceId
  }

  /** Reads the fields back from the packed bytes, as operator tooling does. */
  function Parse(bytes: seq<byte>): (r: Record)
    requires |bytes| == RECORD_SIZE
    ensures WellFormed(r)
  {
    Record(bytes[0], bytes[PUB_KEY_OFFSET..BOARD_ID_OFFSET],
           bytes[BOARD_ID_OFFSET..DEVICE_ID_OFFSET], bytes[DEVICE_ID_OFFSET..])
  }

  /** Parsing a serialized record gives back every field. */
  lemma {:induction false} ParseSerialize(r: Record)
    requires WellFormed(r)
    ensures |Serialize(r)| == RECORD_SIZE
    ensures Parse(Serialize(r)) == r
  {
    var b := Serialize(r);
    assert b[PUB_KEY_OFFSET..BOARD_ID_OFFSET] == r.devicePubKey;
    assert b[BOARD_ID_OFFSET..DEVICE_ID_OFFSET] == r.boardId;
    assert b[DEVICE_ID_OFFSET..] == r.deviceId;
  }

  /** Past the version/key-id byte the packed record is the public key, the board id and the device id, in that order. */
  lemma {:induction false} SerializedTail(r: Record)
    ensures Serialize(r)[1..] == r.devicePubKey + r.boardId + r.deviceId
  {
    assert Serialize(r) == [r.versionKeyId] + (r.devicePubKey + r.boardId + r.deviceId);
  }

  /** The byte at each offset of the packed record belongs to the field laid out there. */
  lemma {:induction false} SerializedAt(r: Record, k: nat)
    requires WellFormed(r) && k < RECORD_SIZE
    ensures |Serialize(r)| == RECORD_SIZE
    ensures Serialize(r)[k] ==
      if k < PUB_KEY_OFFSET then r.versionKeyId
      else if k < BOARD_ID_OFFSET then r.devicePubKey[k - PUB_KEY_OFFSET]
      else if k < DEVICE_ID_OFFSET then r.boardId[k - BOARD_ID_OFFSET]
      else r.deviceId[k - DEVICE_ID_OFFSET]
  {
    assert Serialize(r) == (([r.versionKeyId] + r.devicePubKey) + r.boardId) + r.deviceId;
  }

  /** Serializing a parsed record gives back the bytes. */
  lemma {:induction false} SerializeParse(bytes: seq<byte>)
    requires |bytes| == RECORD_SIZE
    ensures Serialize(Parse(bytes)) == bytes
  {
    var r := Parse(bytes);
    assert bytes == [bytes[0]] + bytes[PUB_KEY_OFFSET..BOARD_ID_OFFSET]
      + bytes[BOARD_ID_OFFSET..DEVICE_ID_OFFSET] + bytes[DEVICE_ID_OFFSET..];
  }

  /**
   * hash_buffer(dest, destSize, buffer, |buffer|): the leading destSize
   * bytes of HMAC-SHA256 keyed with the buffer itself over the buffer.
   */
  function HashBuffer(p: Primitives, destSize: nat, buffer: seq<byte>): (r: seq<byte>)
    requires WellBehaved(p) && destSize <= SHA256_DIGEST_SIZE
    ensures |r| == destSize
    ensures r <= p.hmacSha256(buffer, buffer)
  {
    p.hmacSha256(buffer, buffer)[..destSize]
  }

  /**
   * The device-id field: an id that fits is copied and zero-padded (the
   * record was zeroed first); a longer one is replaced by its fingerprint.
   */
  function DeviceIdField(p: Primitives, id: seq<byte>): (r: seq<byte>)
    requires WellBehaved(p)
    ensures |r| == DEVICE_ID_SIZE
    ensures |id| <= DEVICE_ID_SIZE ==>
      r[..|id|] == id && forall i :: |id| <= i < DEVICE_ID_SIZE ==> r[i] == 0
    ensures |id| > DEVICE_ID_SIZE ==> r == HashBuffer(p, DEVICE_ID_SIZE, id)
  {
    if |id| <= DEVICE_ID_SIZE then id + Zeros(DEVICE_ID_SIZE - |id|)
    else HashBuffer(p, DEVICE_ID_SIZE, id)
  }

  /** The record rma_create_challenge assembles from the server key id and the identity it reads. */
  function BuildRecord(p: Primitives, serverKeyId: byte, boardId: seq<byte>, deviceId: seq<byte>,
                       pubKey: seq<byte>): (r: Record)
    requires WellBehaved(p)
    requires |boardId| == BOARD_ID_SIZE && |pubKey| == X25519_KEY_SIZE
    ensures WellFormed(r)
    ensures r.versionKeyId as int / 16 == RMA_CHALLENGE_VERSION
    ensures r.versionKeyId as int % 16 == serverKeyId as int % 16
    ensures r.boardId == boardId && r.devicePubKey == pubKey
    ensures r.deviceId == DeviceIdField(p, deviceId)
  {
    Record(VkidByte(RMA_CHALLENGE_VERSION, serverKeyId), pubKey, boardId, DeviceIdField(p, deviceId))
  }

  /**
   * The same device id always yields the same device-id field, whatever
   * else differs between two challenges, and an over-long id is shrunk to
   * its self-keyed fingerprint rather than to anything secret.
   */
  lemma {:induction false} DeviceFieldDeterministic(p: Primitives, keyA: byte, keyB: byte,
                                                   boardA: seq<byte>, boardB: seq<byte>,
                                                   id: seq<byte>, pubA: seq<byte>, pubB: seq<byte>)
    requires WellBehaved(p)
    requires |boardA| == |boardB| == BOARD_ID_SIZE && |pubA| == |pubB| == X25519_KEY_SIZE
    requires |id| > DEVICE_ID_SIZE
    ensures BuildRecord(p, keyA, boardA, id, pubA).deviceId == BuildRecord(p, keyB, boardB, id, pubB).deviceId
    ensures BuildRecord(p, keyA, boardA, id, pubA).deviceId == p.hmacSha256(id, id)[..DEVICE_ID_SIZE]
  {
  }
}
