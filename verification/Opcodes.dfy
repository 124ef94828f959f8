/** Frame opcodes (crates/auradb-protocol/src/opcode.rs). */
module Opcodes {
  import opened Wrappers
  import opened BigEndian

  datatype Opcode =
    | Hello | Ping | Health | Auth
    | SchemaCreate | SchemaDrop | SchemaGet | SchemaList
    | Query | Mutate | CursorFetch | CursorClose | Explain | MigrationEstimate
    | TxnBegin | TxnCommit | TxnRollback
    | HelloAck | Pong | HealthResult | AuthResult
    | Success | QueryResult | Failure

  function AsByte(op: Opcode): Byte {
    match op
    case Hello => 0x01
    case Ping => 0x02
    case Health => 0x03
    case Auth => 0x04
    case SchemaCreate => 0x10
    case SchemaDrop => 0x11
    case SchemaGet => 0x12
    case SchemaList => 0x13
    case Query => 0x20
    case Mutate => 0x21
    case CursorFetch => 0x22
    case CursorClose => 0x23
    case Explain => 0x24
    case MigrationEstimate => 0x25
    case TxnBegin => 0x30
    case TxnCommit => 0x31
    case TxnRollback => 0x32
    case HelloAck => 0x81
    case Pong => 0x82
    case HealthResult => 0x83
    case AuthResult => 0x84
    case Success => 0x90
    case QueryResult => 0x91
    case Failure => 0xFF
  }

  /** The table of the decoder, kept apart from the encoder's as in the source. */
  function FromByte(b: Byte): (r: Option<Opcode>)
    ensures r.Some? ==> AsByte(r.value) == b
  {
    match b
    case 0x01 => Some(Hello)
    case 0x02 => Some(Ping)
    case 0x03 => Some(Health)
    case 0x04 => Some(Auth)
    case 0x10 => Some(SchemaCreate)
    case 0x11 => Some(SchemaDrop)
    case 0x12 => Some(SchemaGet)
    case 0x13 => Some(SchemaList)
    case 0x20 => Some(Query)
    case 0x21 => Some(Mutate)
    case 0x22 => Some(CursorFetch)
    case 0x23 => Some(CursorClose)
    case 0x24 => Some(Explain)
    case 0x25 => Some(MigrationEstimate)
    case 0x30 => Some(TxnBegin)
    case 0x31 => Some(TxnCommit)
    case 0x32 => Some(TxnRollback)
    case 0x81 => Some(HelloAck)
    case 0x82 => Some(Pong)
    case 0x83 => Some(HealthResult)
    case 0x84 => Some(AuthResult)
    case 0x90 => Some(Success)
    case 0x91 => Some(QueryResult)
    case 0xFF => Some(Failure)
    case _ => None
  }

  lemma OpcodeRoundTrip(op: Opcode)
    ensures FromByte(AsByte(op)) == Some(op)
  {
    match op case _ =>
  }
}
