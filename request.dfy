/** The request accumulator: what the record loop has gathered about one request
    (identifier, parameters, DATA and STDIN bytes) and the connection it came on.
    Every setter returns an updated copy; the loop always rebinds its accumulator
    to the copy, so the parameter map that the copies share is never observed
    through an older copy and a value model is exact. */
module Request {
  import opened Wire
  import opened Net

  datatype RequestSequence = RequestSequence(
    requestId: int,
    conn: Conn,
    params: map<seq<Byte>, seq<Byte>>,
    data: seq<Byte>,
    stdin: seq<Byte>)
  {
    /** Changes the identifier and nothing else. */
    function SetRequestId(id: int): (r: RequestSequence)
      ensures r.requestId == id
      ensures r.conn == conn && r.params == params && r.data == data && r.stdin == stdin
    {
      this.(requestId := id)
    }

    /** Stores value under key, replacing an earlier value; other keys keep theirs. */
    function AddParams(key: seq<Byte>, value: seq<Byte>): (r: RequestSequence)
      ensures key in r.params && r.params[key] == value
      ensures r.params.Keys == params.Keys + {key}
      ensures forall k :: k in params && k != key ==> r.params[k] == params[k]
      ensures r.requestId == requestId && r.conn == conn && r.data == data && r.stdin == stdin
    {
      this.(params := params[key := value])
    }

    /** Replaces the DATA buffer: earlier DATA bytes are dropped. */
    function SetData(bytes: seq<Byte>): (r: RequestSequence)
      ensures r.data == bytes
      ensures r.requestId == requestId && r.conn == conn && r.params == params && r.stdin == stdin
    {
      this.(data := bytes)
    }

    /** Replaces the STDIN buffer: earlier STDIN bytes are dropped. */
    function SetStdin(bytes: seq<Byte>): (r: RequestSequence)
      ensures r.stdin == bytes
      ensures r.requestId == requestId && r.conn == conn && r.params == params && r.data == data
    {
      this.(stdin := bytes)
    }
  }

  /** A fresh accumulator for a connection: identifier 0, no parameters, no DATA
      or STDIN bytes. */
  function NewRequestSequence(conn: Conn): (r: RequestSequence)
    ensures r.conn == conn && r.requestId == 0
    ensures r.params == map[] && r.data == [] && r.stdin == []
  {
    RequestSequence(0, conn, map[], [], [])
  }

  /** A repeated key keeps the value written last. */
  lemma LastParamWins(r: RequestSequence, key: seq<Byte>, first: seq<Byte>, second: seq<Byte>)
    ensures r.AddParams(key, first).AddParams(key, second) == r.AddParams(key, second)
  {
  }

  /** Distinct keys may be added in either order. */
  lemma ParamsCommute(r: RequestSequence, k1: seq<Byte>, v1: seq<Byte>, k2: seq<Byte>, v2: seq<Byte>)
    requires k1 != k2
    ensures r.AddParams(k1, v1).AddParams(k2, v2) == r.AddParams(k2, v2).AddParams(k1, v1)
  {
  }

  /** Of two successive STDIN payloads only the last remains, and DATA likewise. */
  lemma LastBufferWins(r: RequestSequence, a: seq<Byte>, b: seq<Byte>)
    ensures r.SetStdin(a).SetStdin(b) == r.SetStdin(b)
    ensures r.SetData(a).SetData(b) == r.SetData(b)
    ensures a != [] && b != [] ==> r.SetStdin(a).SetStdin(b).stdin != a + b
  {
  }
}
