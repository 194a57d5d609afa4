/** The game thread's code: the turn-game message hook, the frame it triggers, the input a frame
    injects, which goes through the hooked message handler again, and the teardown. */
module ControlHooks {
  import opened Wrappers
  import opened Protocol
  import opened ControlState
  import opened GameThread
  import opened PushSender
  import TaskTree

  /** What a message meets: the game's objects, the time, and the network's answers to a push. */
  datatype Around = Around(world: TaskTree.World, now: nat, net: Net)

  /** What a frame finds in them. */
  function EnvOf(mem: TaskTree.Memory, w: TaskTree.World): Env
    requires TaskTree.Readable(mem, w)
  {
    Env(TaskTree.Snapshot(mem, w).roundActive, w.turnGame.Some?, TaskTree.WeaponReady(mem, w))
  }

  /** The memory after a weapon choice ... */
  function Chosen(mem: TaskTree.Memory, w: TaskTree.World, id: int): TaskTree.Memory
    requires TaskTree.Readable(mem, w)
  {
    if TaskTree.WeaponTarget(mem, w, id).Some? then TaskTree.ArmedAt(mem, w, id) else mem
  }

  /** ... and after a frame with the input `h`. */
  function FrameMemory(mem: TaskTree.Memory, w: TaskTree.World, h: Held): TaskTree.Memory
    requires TaskTree.Readable(mem, w)
  {
    if w.global.Some? && h.selectWeapon >= 0 then Chosen(mem, w, h.selectWeapon) else mem
  }

  /** Choosing weapon `id` dispatches input and writes memory in the same cases. */
  lemma WeaponReadyMeaning(mem: TaskTree.Memory, w: TaskTree.World, id: int)
    requires TaskTree.Readable(mem, w)
    ensures TaskTree.WeaponTarget(mem, w, id).Some? <==> 1 <= id <= 70 && EnvOf(mem, w).weaponReady
    ensures EnvOf(mem, w).weaponReady ==> EnvOf(mem, w).loaded && EnvOf(mem, w).turnGame
    ensures EnvOf(mem, w).loaded <==> w.global.Some?
    ensures EnvOf(mem, w).turnGame <==> w.turnGame.Some?
  {
  }

  /** A frame leaves the worm whose turn it is with the pending weapon exactly when SelectWeapon is due
      for it (see GameThread.Due), and otherwise leaves memory as it is. */
  lemma FrameArms(mem: TaskTree.Memory, w: TaskTree.World, h: Held, was: bool)
    requires TaskTree.Readable(mem, w)
    ensures var mem', id := FrameMemory(mem, w, h), h.selectWeapon;
            if EnvOf(mem, w).loaded && Due(h, was, EnvOf(mem, w), Send(51, id))
            then var worm := TaskTree.TurnWorm(mem, w);
                 && worm.Some? && worm.value in mem && worm.value in mem'
                 && mem'[worm.value].weapon == id
                 && (mem'[worm.value].entryPtr - (w.global.value.weaponTable + 464 * id)) % 0x1_0000_0000 == 0
                 && forall a | a in mem && a != worm.value :: a in mem' && mem'[a] == mem[a]
            else mem' == mem
  {
    var id := h.selectWeapon;
    WeaponReadyMeaning(mem, w, id);
    TaskTree.WeaponTargetExactly(mem, w, id);
    if TaskTree.WeaponTarget(mem, w, id).Some? { TaskTree.WeaponWriteFields(mem, w, id); }
  }

  class ControlHooks {
    const register: Register
    const memory: TaskTree.GameMemory
    const server: IpcServer
    var turnTeam: int
    var wasFiring: bool
    var published: GameSnapshot
    ghost var requests: seq<Request>
    ghost var frames: nat
    /** Every message the original handler received through the hook. */
    ghost var handled: seq<Msg>

    ghost function View(): Game
      reads this, register
    {
      Game(turnTeam, wasFiring, register.state, requests, frames)
    }

    constructor (register: Register, memory: TaskTree.GameMemory, server: IpcServer)
      requires register.state == CLEARED
      ensures View() == START && published == TaskTree.NO_GAME && handled == []
      ensures this.register == register && this.memory == memory && this.server == server
    {
      this.register, this.memory, this.server := register, memory, server;
      turnTeam, wasFiring, published := -1, false, TaskTree.NO_GAME;
      requests, frames, handled := [], 0, [];
    }

    /** The detour on the turn-game task's HandleMessage. Only a frame touches more than `this`. */
    method HookTurnHandleMessage(m: Msg, around: Around)
      requires m.mtype == FRAME_FINISH ==> TaskTree.Readable(memory.tasks, around.world)
      modifies this, if m.mtype == FRAME_FINISH then {register, memory, server} else {}
      ensures m.mtype != FRAME_FINISH ==>
                View() == old(View()).(turnTeam := TurnAfter(old(turnTeam), m)) && published == old(published)
      ensures m.mtype == FRAME_FINISH ==>
                var w := around.world.(active := old(turnTeam));
                && View() == OnMessage(old(View()), m, EnvOf(old(memory.tasks), w))
                && published == TaskTree.Snapshot(old(memory.tasks), w)
                && server.View() == Push(old(server.View()), published, around.now, around.net)
                && memory.tasks == FrameMemory(old(memory.tasks), w, old(register.state))
      ensures |handled| > |old(handled)| && handled[|handled| - 1] == m
      ensures handled[..|old(handled)|] == old(handled)
      ensures m.mtype != FRAME_FINISH ==> handled == old(handled) + [m]
      ensures forall i | |old(handled)| <= i < |handled| - 1 :: IsInput(handled[i].mtype)
      decreases if m.mtype == FRAME_FINISH then 6 else 0
    {
      if IsStart(m.mtype) {
        if m.data.Some? { turnTeam := Wrap32(m.data.value); }
      } else if IsFinish(m.mtype) {
        turnTeam := -1;
      } else if m.mtype == FRAME_FINISH {
        OnFrame(around);
      }
      handled := handled + [m];
    }

    /** One input message to the turn-game task. It carries a team or a weapon id, and it comes
        back through the hook, where it changes nothing and starts no frame. */
    method SendInput(mtype: nat, payload: int, around: Around)
      requires IsInput(mtype)
      modifies this
      ensures View() == old(View()).(requests := old(requests) + [Send(mtype, payload)])
      ensures published == old(published)
      ensures around.world.turnGame.None? ==> handled == old(handled)
      ensures around.world.turnGame.Some? ==>
                && |handled| == |old(handled)| + 1 && handled[..|old(handled)|] == old(handled)
                && handled[|old(handled)|] == Msg(mtype, Some(if payload >= 0 then payload
                                                              else if old(turnTeam) >= 0 then old(turnTeam) else 0))
      decreases 1
    {
      requests := requests + [Send(mtype, payload)];
      if around.world.turnGame.Some? {
        var word := 0;
        if payload >= 0 {
          word := payload;
        } else if turnTeam >= 0 {
          word := turnTeam;
        }
        HookTurnHandleMessage(Msg(mtype, Some(word)), around);
      }
    }

    /** Build the snapshot, publish it, push it; then, while a game is loaded, apply the held input. */
    method OnFrame(around: Around)
      requires TaskTree.Readable(memory.tasks, around.world)
      modifies this, register, memory, server
      ensures var w := around.world.(active := old(turnTeam));
              && View() == Frame(old(View()), EnvOf(old(memory.tasks), w))
              && published == TaskTree.Snapshot(old(memory.tasks), w)
              && server.View() == Push(old(server.View()), published, around.now, around.net)
              && memory.tasks == FrameMemory(old(memory.tasks), w, old(register.state))
      ensures OnlyInput(old(handled), handled)
      decreases 5
    {
      frames := frames + 1;
      var snap := memory.BuildSnapshot(around.world.(active := turnTeam));
      published := snap;
      server.PushState(snap, around.now, around.net);
      if snap.roundActive {
        ApplyHeldInput(around);
      }
    }

    method SendWhen(held: bool, mtype: nat, around: Around)
      requires IsInput(mtype)
      modifies this
      ensures View() == old(View()).(requests := old(requests) + When(held, Send(mtype, -1)))
      ensures published == old(published) && OnlyInput(old(handled), handled)
      ensures held && around.world.turnGame.Some? ==>
                handled == old(handled) + [Msg(mtype, Some(if old(turnTeam) >= 0 then old(turnTeam) else 0))]
      ensures !(held && around.world.turnGame.Some?) ==> handled == old(handled)
      decreases 2
    {
      if held { SendInput(mtype, -1, around); }
    }

    method ApplyWeapon(id: int, around: Around)
      requires TaskTree.Readable(memory.tasks, around.world)
      modifies this, memory
      ensures var w := around.world.(active := old(turnTeam));
              && View() == old(View()).(requests := old(requests) + WeaponRequests(id, EnvOf(old(memory.tasks), w)))
              && memory.tasks == Chosen(old(memory.tasks), w, id)
              && handled == old(handled) + (if TaskTree.WeaponTarget(old(memory.tasks), w, id).Some?
                                            then [Msg(51, Some(id))] else [])
      ensures published == old(published) && OnlyInput(old(handled), handled)
      decreases 2
    {
      requests := requests + [ChooseWeapon(id)];
      var w := around.world.(active := turnTeam);
      WeaponReadyMeaning(memory.tasks, w, id);
      var chosen := memory.ApplyWeapon(w, id);
      if chosen {
        SendInput(SELECT_WEAPON, id, around);
      }
    }

    method ApplyOneShots(held: Held, around: Around)
      requires TaskTree.Readable(memory.tasks, around.world)
      modifies this, memory
      ensures var w := around.world.(active := old(turnTeam));
              && View() == old(View()).(requests := old(requests) + OneShots(held, EnvOf(old(memory.tasks), w)))
              && memory.tasks == if held.selectWeapon >= 0 then Chosen(old(memory.tasks), w, held.selectWeapon)
                                 else old(memory.tasks)
      ensures published == old(published) && OnlyInput(old(handled), handled)
      decreases 3
    {
      ghost var env := EnvOf(memory.tasks, around.world.(active := turnTeam));
      SendWhen(held.jump, JUMP, around);
      if held.selectWeapon >= 0 {
        ApplyWeapon(held.selectWeapon, around);
      }
      assert requests == old(requests) + OneShots(held, env);
    }

    /** Movement and aim are asserted again on every frame. */
    method ApplyDirections(held: Held, around: Around)
      modifies this
      ensures View() == old(View()).(requests := old(requests) + Directions(held))
      ensures published == old(published) && OnlyInput(old(handled), handled)
      decreases 3
    {
      SendWhen(held.moveLeft, MOVE_LEFT, around);
      SendWhen(held.moveRight, MOVE_RIGHT, around);
      SendWhen(held.aimUp, MOVE_UP, around);
      SendWhen(held.aimDown, MOVE_DOWN, around);
      JoinedFour(old(requests), When(held.moveLeft, Send(MOVE_LEFT, -1)), When(held.moveRight, Send(MOVE_RIGHT, -1)),
                 When(held.aimUp, Send(MOVE_UP, -1)), When(held.aimDown, Send(MOVE_DOWN, -1)));
    }

    method ApplyFire(held: Held, around: Around)
      modifies this
      ensures View() == old(View()).(requests := old(requests) + FireEdge(held.firing, old(wasFiring)),
                                     wasFiring := held.firing)
      ensures published == old(published) && OnlyInput(old(handled), handled)
      decreases 3
    {
      if held.firing && !wasFiring {
        SendInput(FIRE_WEAPON, -1, around);
      } else if !held.firing && wasFiring {
        SendInput(RELEASE_WEAPON, -1, around);
      }
      wasFiring := held.firing;
      assert requests == old(requests) + FireEdge(held.firing, old(wasFiring));
    }

    method ApplyHeldInput(around: Around)
      requires TaskTree.Readable(memory.tasks, around.world)
      modifies this, register, memory
      ensures var w, h := around.world.(active := old(turnTeam)), old(register.state);
              && View() == old(View()).(reg := Consumed(h), wasFiring := h.firing,
                                        requests := old(requests) +
                                          FrameRequests(h, old(wasFiring), EnvOf(old(memory.tasks), w)))
              && memory.tasks == if h.selectWeapon >= 0 then Chosen(old(memory.tasks), w, h.selectWeapon)
                                 else old(memory.tasks)
      ensures published == old(published) && OnlyInput(old(handled), handled)
      decreases 4
    {
      ghost var env := EnvOf(memory.tasks, around.world.(active := turnTeam));
      var held := register.Read();
      ApplyOneShots(held, around);
      ApplyDirections(held, around);
      ApplyFire(held, around);
      Joined(old(requests), OneShots(held, env), Directions(held), FireEdge(held.firing, old(wasFiring)));
    }

    method OnGameTornDown()
      modifies this, register
      ensures View() == TornDown(old(View())) && published == TaskTree.NO_GAME && handled == old(handled)
    {
      turnTeam := -1;
      register.Clear();
      wasFiring := false;
      published := TaskTree.NO_GAME;
      requests := [];
    }
  }

  lemma Joined<T>(s: seq<T>, a: seq<T>, b: seq<T>, c: seq<T>)
    ensures s + a + b + c == s + (a + b + c)
  {
  }

  lemma JoinedFour<T>(s: seq<T>, a: seq<T>, b: seq<T>, c: seq<T>, d: seq<T>)
    ensures s + a + b + c + d == s + (a + b + c + d)
  {
  }

  predicate OnlyInput(before: seq<Msg>, now: seq<Msg>) {
    before <= now && forall i | |before| <= i < |now| :: IsInput(now[i].mtype)
  }
}
