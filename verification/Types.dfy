/** The value types of the program: stored objects, locks, tokens, and what travels between nodes. */
module Types {

  /** Errors of the embedded database and of the layers above it. */
  datatype Error =
    | BucketNameRequired
    | KeyRequired
    | IncompatibleValue
    | BucketMissing(name: string)
    | BucketNotFound
    | NoObject
    | NoToken

  /** What a Go function with a lone `error` result returns. */
  datatype Status = Ok | Err(error: Error)

  datatype Option<+T> = None | Some(value: T)

  /** The two root buckets of the database. All objects live in the first; nothing is ever stored in the other. */
  const KV_BUCKET := "kv"
  const SYSTEM_BUCKET := "_system"

  datatype Lock = Lock(
    key: string, prefix: string, lockID: string, nodeID: string, nodeAddress: string,
    claimTime: int, expireTime: int)

  /** What a new lock draws from its surroundings: a random id, the id of the machine, two readings of the clock. */
  datatype LockDraw = LockDraw(id: string, machine: string, claim: int, base: int)

  datatype KVObject = KVObject(lastUpdated: int, secret: bool, data: string, locks: seq<Lock>, plaintext: bool)

  /** A `KVUpdate`, one constructor for each update type the dispatcher knows, and one for all others. */
  datatype Update =
    | PutKey(key: string, value: KVObject)
    | DeleteKey(key: string)
    | DeleteBucket(key: string)
    | LockCreate(key: string)
    | LockDelete(lock: Lock)
    | Unknown

  datatype Token = Token(
    issueTime: int, expireTime: int, uid: string, token: string, issuedBy: string, kind: string)

  type TokenMap = map<string, Token>

  /** The marshalled body of a message. */
  datatype Payload = KVPayload(update: Update) | TokenPayload(store: TokenMap) | RawPayload(bytes: string)

  datatype Message = Message(epoch: nat, typ: string, origin: string, data: Payload, dataType: string)

  /** One copy of a message on its way to one peer. */
  datatype Packet = Packet(to: string, msg: Message)
}
