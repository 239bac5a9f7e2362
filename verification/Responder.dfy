// The shared state of the NNTP responder and its atomic operations:
// internal/adversarial/server.go. Every operation below is one atomic step there, either on
// an atomic counter or under the mutex.
module Responder {
  const BYTE_BUDGET := 512 * 0x10_0000
  const REQUEST_BUDGET := 8192
  const TRANSCRIPT_LIMIT := 8192

  // One call of Server.article.
  datatype Call = Call(id: string, attempt: nat)

  // What a call sends, as far as its attempt number decides it.
  datatype Reply = Missing | Hangup | Corrupted | Normal

  datatype Event = Event(call: Call, reply: Reply, completed: bool)

  datatype Shared = Shared(
    requests: nat, bodyRequests: nat, attempts: map<string, nat>, transcript: seq<Event>, droppedEvents: nat,
    wireBytes: nat, wireReserved: nat)

  function Attempts(s: Shared, id: string): nat {
    if id in s.attempts then s.attempts[id] else 0
  }

  function ReplyTo(kind: string, attempt: nat): Reply {
    if kind == "always-missing" || (kind == "first-missing" && attempt == 1) then Missing
    else if kind == "disconnect" then Hangup
    else if kind == "first-corrupt" && attempt == 1 then Corrupted
    else Normal
  }

  function Count(s: Shared): Shared {
    s.(requests := s.requests + 1)
  }

  function Take(s: Shared, id: string): Shared {
    s.(attempts := s.attempts[id := Attempts(s, id) + 1])
  }

  function Recorded(s: Shared, e: Event): Shared {
    if |s.transcript| < TRANSCRIPT_LIMIT then s.(transcript := s.transcript + [e])
    else s.(droppedEvents := s.droppedEvents + 1)
  }

  function CountArticle(s: Shared): Shared {
    s.(bodyRequests := s.bodyRequests + 1)
  }

  predicate Affords(s: Shared, length: nat) {
    s.wireReserved + length <= BYTE_BUDGET
  }

  // The counter still holds what a connection loaded.
  predicate Unmoved(s: Shared, seen: nat) {
    s.wireReserved == seen
  }

  function Granted(s: Shared, length: nat): Shared {
    s.(wireReserved := s.wireReserved + length)
  }

  function Wrote(s: Shared, n: nat): Shared {
    s.(wireBytes := s.wireBytes + n)
  }

  function SumOf(lengths: seq<nat>): nat {
    if |lengths| == 0 then 0 else SumOf(lengths[..|lengths| - 1]) + lengths[|lengths| - 1]
  }

  lemma SumOfStep(lengths: seq<nat>, k: nat)
    requires k < |lengths|
    ensures SumOf(lengths[..k + 1]) == SumOf(lengths[..k]) + lengths[k]
    ensures SumOf(lengths[..k + 1]) <= SumOf(lengths)
    decreases |lengths| - k
  {
    assert lengths[..k + 1][..k] == lengths[..k];
    if k + 1 < |lengths| {
      SumOfStep(lengths, k + 1);
    } else {
      assert lengths[..k + 1] == lengths;
    }
  }

  datatype WriteResult = OverBudget | SocketError | ShortWrite | Delivered

  class Server {
    var requests: nat
    var bodyRequests: nat
    var attempts: map<string, nat>
    var transcript: seq<Event>
    var droppedEvents: nat
    var wireBytes: nat
    var wireReserved: nat

    constructor ()
      ensures View() == Shared(0, 0, map[], [], 0, 0, 0)
    {
      requests, bodyRequests, attempts, transcript, droppedEvents := 0, 0, map[], [], 0;
      wireBytes, wireReserved := 0, 0;
    }

    function View(): Shared
      reads this
    {
      Shared(requests, bodyRequests, attempts, transcript, droppedEvents, wireBytes, wireReserved)
    }

    // The request counter: whether the command may be served.
    method CountRequest() returns (served: bool)
      modifies this
      ensures View() == Count(old(View()))
      ensures served <==> View().requests <= REQUEST_BUDGET
    {
      requests := requests + 1;
      served := requests <= REQUEST_BUDGET;
    }

    method CountBody()
      modifies this
      ensures View() == CountArticle(old(View()))
    {
      bodyRequests := bodyRequests + 1;
    }

    // The number of this call among the calls for the same article, under the mutex.
    method TakeAttempt(id: string) returns (attempt: nat)
      modifies this
      ensures View() == Take(old(View()), id)
      ensures attempt == Attempts(View(), id) == Attempts(old(View()), id) + 1
    {
      attempt := (if id in attempts then attempts[id] else 0) + 1;
      attempts := attempts[id := attempt];
    }

    // The deferred transcript entry, under the mutex.
    method Record(e: Event)
      modifies this
      ensures View() == Recorded(old(View()), e)
    {
      if |transcript| < TRANSCRIPT_LIMIT {
        transcript := transcript + [e];
      } else {
        droppedEvents := droppedEvents + 1;
      }
    }

    // The first half of a reservation: what is reserved now, and whether the length still fits.
    method LoadReserved(length: nat) returns (fits: bool, reserved: nat)
      ensures reserved == wireReserved && (fits <==> Affords(View(), length))
    {
      reserved := wireReserved;
      fits := !(length > BYTE_BUDGET - reserved);
    }

    // The second half: the compare-and-swap.
    method SwapReserved(reserved: nat, length: nat) returns (swapped: bool)
      modifies this
      ensures swapped <==> Unmoved(old(View()), reserved)
      ensures View() == if swapped then Granted(old(View()), length) else old(View())
    {
      swapped := wireReserved == reserved;
      if swapped {
        wireReserved := reserved + length;
      }
    }

    // The loop of Server.write: load and swap until nobody reserved in between. others is what
    // the other connections reserve between a load and its swap, one attempt after the other.
    method Reserve(length: nat, others: seq<nat>) returns (ok: bool, attempts: nat)
      requires wireReserved + SumOf(others) <= BYTE_BUDGET
      modifies this
      ensures attempts <= |others|
      ensures var moved := Granted(old(View()), SumOf(others[..attempts]));
              View() == if ok then Granted(moved, length) else moved
      ensures ok ==> forall k :: 0 <= k < attempts ==> others[k] > 0
      ensures if ok then wireReserved <= BYTE_BUDGET else !Affords(View(), length)
    {
      attempts := 0;
      while true
        invariant attempts <= |others| && forall k :: 0 <= k < attempts ==> others[k] > 0
        invariant View() == Granted(old(View()), SumOf(others[..attempts]))
        decreases |others| - attempts
      {
        var fits, reserved := LoadReserved(length);
        if !fits {
          return false, attempts;
        }
        if attempts < |others| {
          SumOfStep(others, attempts);
          wireReserved := wireReserved + others[attempts];
        }
        var swapped := SwapReserved(reserved, length);
        if swapped {
          return true, attempts;
        }
        attempts := attempts + 1;
      }
    }

    method AddBytes(n: nat)
      modifies this
      ensures View() == Wrote(old(View()), n)
    {
      wireBytes := wireBytes + n;
    }

    // Server.write as one connection sees it: what the socket took, which may be less than the
    // length, counts as written only once the whole length is reserved. failed: the socket
    // reports an error, which comes before a short write.
    method Write(length: nat, others: seq<nat>, sent: nat, failed: bool)
      returns (result: WriteResult, attempts: nat)
      requires wireReserved + SumOf(others) <= BYTE_BUDGET && sent <= length
      modifies this
      ensures attempts <= |others|
      ensures var moved := Granted(old(View()), SumOf(others[..attempts]));
              View() == if result == OverBudget then moved else Wrote(Granted(moved, length), sent)
      ensures old(wireBytes) <= old(wireReserved) ==> wireBytes <= wireReserved <= BYTE_BUDGET
      ensures result == OverBudget ==> !Affords(View(), length)
      ensures result == SocketError ==> failed
      ensures result == ShortWrite ==> !failed && sent < length
      ensures result == Delivered ==> !failed && sent == length
    {
      var reserved;
      reserved, attempts := Reserve(length, others);
      if !reserved {
        if attempts < |others| {
          SumOfStep(others, attempts);
        } else {
          assert others[..attempts] == others;
        }
        return OverBudget, attempts;
      }
      AddBytes(sent);
      if sent != length && !failed {
        return ShortWrite, attempts;
      }
      result := if failed then SocketError else Delivered;
    }

    // The start of an article call.
    method BeginArticle(id: string) returns (attempt: nat)
      modifies this
      ensures View() == Take(CountArticle(old(View())), id)
      ensures attempt == Attempts(View(), id)
    {
      CountBody();
      attempt := TakeAttempt(id);
    }
  }
}
