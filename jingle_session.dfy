/** A Jingle session's media-source binding and the guard on its
    destruction (`Jingle::ISession`). Deletion of a media source is recorded
    in the ghost set `destroyed`, so that a session which owns its sources
    can be told apart from one that only borrows them. */
module JingleSession {

  import opened Sequences

  /** The session states the destructor distinguishes. */
  datatype SessionState = Pending | Active | Terminating | Terminated

  /** The fields of a received `<jingle>` stanza a session is built from. */
  datatype JingleStanza = JingleStanza(initiator: string, responder: string, sid: string)

  /** The session manager a session belongs to (only referred to here). */
  class SessionManager {
    constructor () { }
  }

  /** A media source bound to a session (`PacketDispatcher`). */
  class PacketDispatcher {
    constructor () { }
  }

  class ISession {
    const manager: SessionManager
    const initiator: string
    const responder: string
    var sid: string
    var state: SessionState
    /** Whether the session owns (and so deletes) its media sources. */
    var destroySources: bool
    var sources: seq<PacketDispatcher>
    /** The media sources this session has deleted. */
    ghost var destroyed: set<PacketDispatcher>

    /** `ISession(manager, initiator, responder, sid)`: an empty `sid` is
        replaced by `randomKey`, the value `generateRandomKey(16)` returns. */
    constructor Create(manager: SessionManager, initiator: string, responder: string, sid: string,
                       randomKey: string)
      ensures this.manager == manager && this.initiator == initiator && this.responder == responder
      ensures sid != "" ==> this.sid == sid
      ensures sid == "" ==> this.sid == randomKey
      ensures destroySources && sources == [] && destroyed == {}
    {
      this.manager := manager;
      this.initiator := initiator;
      this.responder := responder;
      this.sid := sid;
      destroySources := true;
      sources := [];
      destroyed := {};
      new;
      if this.sid == "" {
        this.sid := randomKey;
      }
    }

    /** `ISession(manager, jingle)`: everything is copied from the stanza,
        an empty sid included. */
    constructor FromStanza(manager: SessionManager, j: JingleStanza)
      ensures this.manager == manager
      ensures initiator == j.initiator && responder == j.responder && sid == j.sid
      ensures destroySources && sources == [] && destroyed == {}
    {
      this.manager := manager;
      initiator := j.initiator;
      responder := j.responder;
      sid := j.sid;
      destroySources := true;
      sources := [];
      destroyed := {};
    }

    /** `addMediaSource`: the source is appended after the others. */
    method AddMediaSource(source: PacketDispatcher)
      modifies this
      ensures sources == old(sources) + [source]
      ensures destroySources == old(destroySources) && destroyed == old(destroyed)
      ensures sid == old(sid) && state == old(state)
    {
      sources := sources + [source];
    }

    /** `removeMediaSources`: the list is emptied; an owning session first
        deletes every source in it (`Util::ClearVector`), a borrowing one only
        drops them. Deleting twice is undefined in C++, hence the requires of
        an owning session. */
    method RemoveMediaSources()
      requires destroySources ==> Distinct(sources) && forall s :: s in sources ==> s !in destroyed
      modifies this
      ensures sources == []
      ensures destroyed == old(destroyed) + (if old(destroySources) then set s | s in old(sources) else {})
      ensures destroySources == old(destroySources) && sid == old(sid) && state == old(state)
    {
      if destroySources {
        var i := 0;
        while i < |sources|
          invariant 0 <= i <= |sources|
          invariant sources == old(sources) && destroySources == old(destroySources)
          invariant sid == old(sid) && state == old(state)
          invariant destroyed == old(destroyed) + set k | 0 <= k < i :: sources[k]
          invariant forall k :: i <= k < |sources| ==> sources[k] !in destroyed
        {
          // delete sources[i]
          assert sources[i] !in destroyed;
          destroyed := destroyed + {sources[i]};
          i := i + 1;
        }
        assert (set k | 0 <= k < |sources| :: sources[k]) == set s | s in old(sources);
      }
      sources := [];
    }

    /** The destructor: only a `Terminating` session may be destroyed, and it
        tears its media sources down once. */
    method Destroy()
      requires state == Terminating
      requires destroySources ==> Distinct(sources) && forall s :: s in sources ==> s !in destroyed
      modifies this
      ensures sources == []
      ensures destroyed == old(destroyed) + (if old(destroySources) then set s | s in old(sources) else {})
    {
      RemoveMediaSources();
    }
  }

}
