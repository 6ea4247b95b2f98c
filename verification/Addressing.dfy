/** The address a client is configured with is the address under which the driver reaches it. */
module Addressing {
  import opened ControlPlane
  import Convergence
  import Driver

  /** A client that asked is, once the control plane is quiet, reached by its SID and CID: a send to
      them passes every test and goes to its own slot, and to no other. */
  lemma SettledIsReached(st: State, run: seq<Step>, c: nat, g: Driver.Globals, maxBuflen: nat, len: nat)
    requires Init(st) && ValidRun(st, run) && Quiet(Final(st, run))
    requires c in Final(st, run).peers && Final(st, run).peers[c].requested
    requires 1 <= c <= g.serverId < 0x1_0000 && 0 < len < maxBuflen
    ensures var resp := Final(st, run).peers[c].resp;
            && Driver.Addressed(resp.cid0, resp.sid0, c)
            && Driver.Peer(resp.cid0, resp.sid0) == c
            && Driver.SendError(g, maxBuflen, resp.cid0, resp.sid0, len) == 0
            && forall p | Driver.Addressed(resp.cid0, resp.sid0, p) :: p == c
  {
    Convergence.Converges(st, run);
    var resp := Final(st, run).peers[c].resp;
    assert Convergence.Settled(Final(st, run).peers[c], c);
    AddressIs(resp.sid0, resp.cid0, c);
    Driver.AddressLaws(g, maxBuflen, resp.cid0, resp.sid0, len);
  }

  lemma AddressIs(sid: int, cid: int, c: nat)
    requires sid == 27 && cid == c * 100 && c < 0x1_0000
    ensures Driver.Addressed(cid, sid, c) && forall p | Driver.Addressed(cid, sid, p) :: p == c
  {
  }
}
