// The registry as the AMF keeps it: objects that are updated in place. Every
// method is proved to do what its namesake in Registry does to the value View().

module RegistryOps {
  import opened Basics
  import opened Context
  import opened Registry

  const MAX_AMF_UE_NGAP_ID := 1099511627775

  // AMFContext with its id generator and the CM gauges. The ghost fields list the
  // objects it is about; live is the set of UE contexts that have not been removed.
  class AmfContext {
    var ranUePool: map<int, RanUe>
    var usedIds: set<int>
    var connected: Gauge
    var idle: Gauge
    ghost var rans: set<AmfRan>
    ghost var ranUes: set<RanUe>
    ghost var ues: set<AmfUe>
    ghost var live: set<AmfUe>
    ghost var preparing: set<RanUe>

    constructor ()
      ensures View() == Graph(map[], {}, map[], map[], map[], map[], {}, {}, {}, Gauge(0, 0), Gauge(0, 0), {})
    {
      ranUePool, usedIds, connected, idle := map[], {}, Gauge(0, 0), Gauge(0, 0);
      rans, ranUes, ues, live, preparing := {}, {}, {}, {}, {};
    }

    ghost function ConnOf(r: RanUe): Conn
      reads r
    {
      Conn(r.ranUeNgapId, r.amfUeNgapId, r.ran, r.amfUe, r.holdingAmfUe, r.sourceUe, r.targetUe, r.releaseAction,
           r.successPduSessionId)
    }

    ghost function Lists(): map<Slot, RanUe>
      reads this`rans, rans`ranUeList
    {
      map ran, id | ran in rans && id in ran.ranUeList :: Slot(ran, id) := ran.ranUeList[id]
    }

    ghost function AccessTypes(): map<AmfRan, AccessType>
      reads this`rans, rans`anType
    {
      map ran | ran in rans :: ran.anType
    }

    ghost function Conns(): map<RanUe, Conn>
      reads this`ranUes, ranUes
    {
      map r | r in ranUes :: ConnOf(r)
    }

    ghost function UeLinks(): map<Port, RanUe>
      reads this`ues, ues`ranUe
    {
      map ue, an | ue in ues && an in ue.ranUe :: Port(ue, an) := ue.ranUe[an]
    }

    ghost function UeFlags(): set<Port>
      reads this`ues, ues`anTypeFlags
    {
      set ue, an | ue in ues && an in ue.anTypeFlags :: Port(ue, an)
    }

    ghost function View(): Graph
      reads this, rans, ranUes, ues`ranUe, ues`anTypeFlags
    {
      Graph(ranUePool, usedIds, Lists(), AccessTypes(), Conns(), UeLinks(), UeFlags(), ues, live, connected, idle,
            preparing)
    }

    // How single fields show in the view.
    lemma Look()
      ensures View().conn.Keys == ranUes && View().an.Keys == rans && View().ues == ues && View().live == live
      ensures View().pool == ranUePool && View().used == usedIds
    {
    }

    lemma LookAtPool(id: int)
      requires Closed(View()) && id in ranUePool
      ensures ranUePool[id] in ranUes
    {
      Look();
      hide View;
      assert View().pool[id] in View().conn;
    }

    lemma LookAtConn(r: RanUe)
      requires r in ranUes
      ensures r in View().conn && View().conn[r] == ConnOf(r)
    {
    }

    lemma LookAtRan(ran: AmfRan, id: int)
      requires ran in rans
      ensures ran in View().an && View().an[ran] == ran.anType
      ensures Slot(ran, id) in View().lists <==> id in ran.ranUeList
      ensures id in ran.ranUeList ==> View().lists[Slot(ran, id)] == ran.ranUeList[id]
    {
    }

    lemma LookAtUe(ue: AmfUe, an: AccessType)
      requires ue in ues
      ensures Port(ue, an) in View().links <==> an in ue.ranUe
      ensures an in ue.ranUe ==> View().links[Port(ue, an)] == ue.ranUe[an]
      ensures Port(ue, an) in View().flags <==> an in ue.anTypeFlags
    {
    }

    // ----- single stores, and what they do to the view -----

    method DropLink(ue: AmfUe, an: AccessType)
      requires ue in ues
      modifies ue`ranUe
      ensures View() == old(View()).(links := old(View()).links - {Port(ue, an)})
    {
      ue.ranUe := ue.ranUe - {an};
      assert UeLinks() == old(UeLinks()) - {Port(ue, an)};
    }

    method PutLink(ue: AmfUe, an: AccessType, r: RanUe)
      requires ue in ues
      modifies ue`ranUe
      ensures View() == old(View()).(links := old(View()).links[Port(ue, an) := r])
    {
      ue.ranUe := ue.ranUe[an := r];
      assert UeLinks() == old(UeLinks())[Port(ue, an) := r];
    }

    method AddFlag(ue: AmfUe, an: AccessType)
      requires ue in ues
      modifies ue`anTypeFlags
      ensures View() == old(View()).(flags := old(View()).flags + {Port(ue, an)})
    {
      ue.anTypeFlags := ue.anTypeFlags + {an};
      assert UeFlags() == old(UeFlags()) + {Port(ue, an)};
    }

    method SetAmfUe(r: RanUe, ue: AmfUe?)
      requires r in ranUes
      modifies r`amfUe
      ensures View() == old(View()).(conn := old(View()).conn[r := old(ConnOf(r)).(ue := ue)])
    {
      r.amfUe := ue;
      assert Conns() == old(Conns())[r := old(ConnOf(r)).(ue := ue)];
    }

    method SetRan(r: RanUe, ran: AmfRan, id: int)
      requires r in ranUes
      modifies r`ran, r`ranUeNgapId
      ensures View() == old(View()).(conn := old(View()).conn[r := old(ConnOf(r)).(ran := ran, ranId := id)])
    {
      r.ran, r.ranUeNgapId := ran, id;
      assert Conns() == old(Conns())[r := old(ConnOf(r)).(ran := ran, ranId := id)];
    }

    method SetTarget(r: RanUe, target: RanUe?)
      requires r in ranUes
      modifies r`targetUe
      ensures View() == old(View()).(conn := old(View()).conn[r := old(ConnOf(r)).(target := target)])
    {
      r.targetUe := target;
      assert Conns() == old(Conns())[r := old(ConnOf(r)).(target := target)];
    }

    method SetSource(r: RanUe, ue: AmfUe?, source: RanUe?)
      requires r in ranUes
      modifies r`amfUe, r`sourceUe
      ensures View() == old(View()).(conn := old(View()).conn[r := old(ConnOf(r)).(ue := ue, source := source)])
    {
      r.amfUe, r.sourceUe := ue, source;
      assert Conns() == old(Conns())[r := old(ConnOf(r)).(ue := ue, source := source)];
    }

    method DropListed(ran: AmfRan, id: int)
      requires ran in rans
      modifies ran`ranUeList
      ensures View() == old(View()).(lists := old(View()).lists - {Slot(ran, id)})
    {
      ran.ranUeList := ran.ranUeList - {id};
      assert Lists() == old(Lists()) - {Slot(ran, id)};
    }

    method PutListed(ran: AmfRan, id: int, r: RanUe)
      requires ran in rans
      modifies ran`ranUeList
      ensures View() == old(View()).(lists := old(View()).lists[Slot(ran, id) := r])
    {
      ran.ranUeList := ran.ranUeList[id := r];
      assert Lists() == old(Lists())[Slot(ran, id) := r];
    }

    method DropPooled(id: int)
      modifies this`ranUePool, this`usedIds
      ensures View() == old(View()).(pool := old(View()).pool - {id}, used := old(View()).used - {id})
    {
      ranUePool := ranUePool - {id};
      usedIds := usedIds - {id};
    }

    method PutPooled(id: int, r: RanUe)
      modifies this`ranUePool
      ensures View() == old(View()).(pool := old(View()).pool[id := r])
    {
      ranUePool := ranUePool[id := r];
    }

    method MoveGauges(an: AccessType, dIdle: int, dConnected: int)
      modifies this`idle, this`connected
      ensures View() == old(View()).(idle := old(View()).idle.Add(an, dIdle), connected := old(View()).connected.Add(an, dConnected))
    {
      idle := idle.Add(an, dIdle);
      connected := connected.Add(an, dConnected);
    }

    // idgenerator.Allocate: any unused id in range, or an error.
    method AllocateAmfUeNgapId() returns (id: Option<int>)
      modifies this`usedIds
      ensures id.Some? ==> 1 <= id.value <= MAX_AMF_UE_NGAP_ID && id.value !in old(usedIds)
                           && View() == old(View()).(used := old(View()).used + {id.value})
      ensures id.None? ==> View() == old(View()) && forall i :: 1 <= i <= MAX_AMF_UE_NGAP_ID ==> i in old(usedIds)
    {
      if i :| 1 <= i <= MAX_AMF_UE_NGAP_ID && i !in usedIds {
        usedIds := usedIds + {i};
        return Some(i);
      }
      id := None;
    }

    method AllocateRanUe(ran: AmfRan, ranId: int, amfId: int) returns (r: RanUe)
      modifies this`ranUes
      ensures fresh(r) && ranUes == old(ranUes) + {r} && r.amfUeNgapId == amfId
      ensures View() == old(View()).(conn := old(View()).conn[r := Conn(ranId, amfId, ran, null, null, null, null, N2NormalRelease, [])])
    {
      r := new RanUe(ran, ranId, amfId);
      ranUes := ranUes + {r};
      assert Conns() == old(Conns())[r := ConnOf(r)];
    }

    method AllocateUe() returns (ue: AmfUe)
      modifies this`ues, this`live
      ensures fresh(ue) && ues == old(ues) + {ue} && live == old(live) + {ue} && !ue.securityContextAvailable
      ensures View() == old(View()).(ues := old(View()).ues + {ue}, live := old(View()).live + {ue})
    {
      ue := new AmfUe();
      ues := ues + {ue};
      live := live + {ue};
      assert UeLinks() == old(UeLinks());
      assert UeFlags() == old(UeFlags());
    }

    method RetireUe(ue: AmfUe)
      modifies this`live
      ensures View() == old(View()).(live := old(View()).live - {ue})
    {
      live := live - {ue};
    }

    method SetAction(r: RanUe, action: RelAction)
      requires r in ranUes
      modifies r`releaseAction
      ensures View() == old(View()).(conn := old(View()).conn[r := old(ConnOf(r)).(action := action)])
    {
      r.releaseAction := action;
      assert Conns() == old(Conns())[r := old(ConnOf(r)).(action := action)];
    }

    method SetSuccess(r: RanUe, ids: seq<int>)
      requires r in ranUes
      modifies r`successPduSessionId
      ensures View() == old(View()).(conn := old(View()).conn[r := old(ConnOf(r)).(success := ids)])
    {
      r.successPduSessionId := ids;
      assert Conns() == old(Conns())[r := old(ConnOf(r)).(success := ids)];
    }

    method SetHolding(r: RanUe, ue: AmfUe?)
      requires r in ranUes
      modifies r`holdingAmfUe
      ensures View() == old(View()).(conn := old(View()).conn[r := old(ConnOf(r)).(holding := ue)])
    {
      r.holdingAmfUe := ue;
      assert Conns() == old(Conns())[r := old(ConnOf(r)).(holding := ue)];
    }

    // History: which targets are in preparation.
    ghost method BeginPreparing(r: RanUe)
      modifies this`preparing
      ensures View() == old(View()).(preparing := old(View()).preparing + {r})
    {
      preparing := preparing + {r};
    }

    ghost method EndPreparing(r: RanUe)
      modifies this`preparing
      ensures View() == old(View()).(preparing := old(View()).preparing - {r})
    {
      preparing := preparing - {r};
    }

    // ----- the operations -----

    // AmfUe.DetachRanUe
    method DetachRanUe(ue: AmfUe, an: AccessType)
      requires Closed(View()) && ue in ues
      modifies this`connected, this`idle, ue`ranUe
      ensures View() == Registry.DetachRanUe(old(View()), ue, an)
    {
      Look();
      hide View;
      MoveGauges(an, 1, -1);
      DropLink(ue, an);
    }

    // RanUe.DetachAmfUe
    method DetachAmfUe(r: RanUe)
      requires Closed(View()) && r in ranUes
      modifies r`amfUe
      ensures View() == Registry.DetachAmfUe(old(View()), r)
    {
      LookAtConn(r);
      hide View;
      SetAmfUe(r, null);
    }

    // RanUe.Remove
    method Remove(r: RanUe)
      requires Closed(View()) && r in ranUes
      modifies this`ranUePool, this`usedIds, this`connected, this`idle, rans`ranUeList, r`amfUe, ues`ranUe
      ensures View() == Registry.Remove(old(View()), r)
    {
      Look();
      LookAtConn(r);
      LookAtRan(r.ran, r.ranUeNgapId);
      hide View;
      var ran := r.ran;
      if r.amfUe != null {
        DetachRanUe(r.amfUe, ran.anType);
        DetachAmfUe(r);
      }
      DropListed(ran, r.ranUeNgapId);
      DropPooled(r.amfUeNgapId);
    }

    // AmfRan.NewRanUe
    method NewRanUe(ran: AmfRan, ranId: int) returns (result: Option<RanUe>)
      requires Closed(View()) && ran in rans
      modifies this`ranUes, this`ranUePool, this`usedIds, ran`ranUeList
      ensures result.None? ==>
                && View() == old(View()) && ranUes == old(ranUes)
                && (forall i :: 1 <= i <= MAX_AMF_UE_NGAP_ID ==> i in old(usedIds))
      ensures result.Some? ==>
                var r := result.value;
                && fresh(r) && ranUes == old(ranUes) + {r}
                && 1 <= r.amfUeNgapId <= MAX_AMF_UE_NGAP_ID && r.amfUeNgapId !in old(usedIds)
                && View() == Registry.NewRanUe(old(View()), ran, ranId, r.amfUeNgapId, r)
    {
      Look();
      hide View;
      var id := AllocateAmfUeNgapId();
      if id.None? { return None; }
      var r := AllocateRanUe(ran, ranId, id.value);
      if ranId != UNSPECIFIED {
        PutListed(ran, ranId, r);
      }
      PutPooled(id.value, r);
      result := Some(r);
    }

    // RanUe.SwitchToRan
    method SwitchToRan(r: RanUe, newRan: AmfRan, ranId: int)
      requires Closed(View()) && r in ranUes && newRan in rans
      modifies rans`ranUeList, r`ran, r`ranUeNgapId
      ensures View() == Registry.SwitchToRan(old(View()), r, newRan, ranId)
    {
      Look();
      LookAtConn(r);
      LookAtRan(r.ran, r.ranUeNgapId);
      hide View;
      DropListed(r.ran, r.ranUeNgapId);
      PutListed(newRan, ranId, r);
      SetRan(r, newRan, ranId);
    }

    // handlePathSwitchRequestMain: the id is written first.
    method PathSwitch(r: RanUe, newRan: AmfRan, ranId: int, switched: bool)
      requires Closed(View()) && r in ranUes && newRan in rans
      modifies rans`ranUeList, r`ran, r`ranUeNgapId
      ensures View() == Registry.PathSwitch(old(View()), r, newRan, ranId, switched)
    {
      hide View, Registry.SwitchToRan, IndexRefs, ConnRefs, LinkRefs;
      Look();
      LookAtConn(r);
      ClosedIfRenamed(View(), r, ranId);
      SetRan(r, r.ran, ranId);
      if switched {
        Look();
        SwitchToRan(r, newRan, ranId);
      }
    }

    // The head of handleHandoverRequestAcknowledgeMain
    method StoreRanId(ran: AmfRan, r: RanUe, ranId: int)
      requires Closed(View()) && r in ranUes && ran in rans
      modifies ran`ranUeList, r`ran, r`ranUeNgapId
      ensures View() == Registry.StoreRanId(old(View()), ran, r, ranId)
    {
      Look();
      LookAtConn(r);
      hide View;
      SetRan(r, r.ran, ranId);
      PutListed(ran, ranId, r);
    }

    // AmfUe.AttachRanUe
    method AttachRanUe(ue: AmfUe, r: RanUe)
      requires Closed(View()) && ue in ues && r in ranUes
      modifies this`preparing, ue`ranUe, r`amfUe
      ensures View() == Registry.AttachRanUe(old(View()), ue, r)
    {
      Look();
      LookAtConn(r);
      LookAtRan(r.ran, r.ranUeNgapId);
      hide View;
      PutLink(ue, r.ran.anType, r);
      SetAmfUe(r, ue);
      EndPreparing(r);
    }

    // SendUEContextReleaseCommand
    method SendUEContextReleaseCommand(r: RanUe, action: RelAction)
      requires Closed(View()) && r in ranUes
      modifies r`releaseAction
      ensures View() == ReleaseCommand(old(View()), r, action)
    {
      LookAtConn(r);
      hide View;
      SetAction(r, action);
    }

    // AttachRanUeToAmfUeAndReleaseOldIfAny
    method AttachRanUeToAmfUeAndReleaseOldIfAny(ue: AmfUe, r: RanUe)
      requires Closed(View()) && ue in ues && r in ranUes
      modifies this`connected, this`idle, this`preparing, ue`ranUe, ue`anTypeFlags, ranUes`amfUe, ranUes`releaseAction
      ensures View() == AttachAndReleaseOld(old(View()), ue, r)
    {
      Look();
      LookAtConn(r);
      LookAtRan(r.ran, r.ranUeNgapId);
      var an := r.ran.anType;
      LookAtUe(ue, an);
      ReplaceOrCount(ue, an);
      hide View;
      AttachRanUe(ue, r);
    }

    // Its two branches, before the new connection is linked.
    method ReplaceOrCount(ue: AmfUe, an: AccessType)
      requires Closed(View()) && ue in ues
      modifies this`connected, this`idle, ue`anTypeFlags, ranUes`amfUe, ranUes`releaseAction
      ensures View() == ReleaseOldOrCount(old(View()), Port(ue, an))
    {
      Look();
      LookAtUe(ue, an);
      hide View;
      if an in ue.ranUe {
        var oldRanUe := ue.ranUe[an];
        DetachAmfUe(oldRanUe);
        SendUEContextReleaseCommand(oldRanUe, ReleaseUeContext);
      } else {
        if an in ue.anTypeFlags {
          MoveGauges(an, -1, 0);
        }
        MoveGauges(an, 0, 1);
        AddFlag(ue, an);
      }
    }

    // AttachRanUeToAmfUeAndReleaseOldHandover
    method AttachRanUeToAmfUeAndReleaseOldHandover(ue: AmfUe, source: RanUe?, target: RanUe)
      requires Closed(View()) && ue in ues && target in ranUes && (source != null ==> source in ranUes)
      modifies this`preparing, ue`ranUe, ranUes`amfUe, ranUes`releaseAction
      ensures View() == AttachAndReleaseSource(old(View()), ue, source, target)
    {
      Look();
      hide View;
      if source != null {
        DetachAmfUe(source);
        SendUEContextReleaseCommand(source, ReleaseHandover);
      }
      AttachRanUe(ue, target);
    }

    // AttachSourceUeTargetUe
    method AttachSourceUeTargetUe(source: RanUe, target: RanUe)
      requires Closed(View()) && source in ranUes && target in ranUes
      modifies this`preparing, source`targetUe, target`amfUe, target`sourceUe
      ensures View() == PairSourceTarget(old(View()), source, target)
    {
      Look();
      LookAtConn(source);
      LookAtConn(target);
      hide View;
      if source.amfUe == null { return; }
      SetSource(target, source.amfUe, source);
      LookAtConn(source);
      SetTarget(source, target);
      BeginPreparing(target);
    }

    // NewAmfUe
    method NewAmfUe() returns (ue: AmfUe)
      requires Closed(View())
      modifies this`ues, this`live
      ensures fresh(ue) && ues == old(ues) + {ue} && live == old(live) + {ue} && !ue.securityContextAvailable
      ensures View() == NewUe(old(View()), ue)
    {
      Look();
      hide View;
      ue := AllocateUe();
    }

    // One round of the loop over ue.RanUe
    method RemoveLinkedRanUe(ue: AmfUe, an: AccessType)
      requires Closed(View()) && ue in ues
      modifies this`ranUePool, this`usedIds, this`connected, this`idle, rans`ranUeList, ranUes`amfUe, ues`ranUe
      ensures View() == RemoveLink(old(View()), ue, an)
    {
      Look();
      LookAtUe(ue, an);
      hide View;
      if an in ue.ranUe {
        Remove(ue.ranUe[an]);
      }
    }

    // AmfUe.Remove. The order in which the map is visited is not fixed.
    method RemoveAmfUe(ue: AmfUe) returns (ghost first: AccessType)
      requires Closed(View()) && ue in ues
      modifies this`ranUePool, this`usedIds, this`connected, this`idle, this`live,
               rans`ranUeList, ranUes`amfUe, ues`ranUe
      ensures View() == RemoveUe(old(View()), ue, first)
    {
      var start: AccessType := *;
      first := start;
      hide View;
      RemoveLinkedRanUe(ue, start);
      RemoveLinkedRanUe(ue, Other(start));
      GiveUpIdleMarks(ue);
    }

    method GiveUpIdleMarks(ue: AmfUe)
      requires Closed(View()) && ue in ues
      modifies this`connected, this`idle, this`live
      ensures View() == Registry.RetireUe(old(View()), ue)
    {
      LookAtUe(ue, ThreeGpp);
      LookAtUe(ue, NonThreeGpp);
      hide View;
      if ThreeGpp in ue.anTypeFlags { MoveGauges(ThreeGpp, -1, 0); }
      if NonThreeGpp in ue.anTypeFlags { MoveGauges(NonThreeGpp, -1, 0); }
      RetireUe(ue);
    }

    // One round of RemoveAllRanUe's loop
    method RemoveListedRanUe(ran: AmfRan, id: int)
      requires Closed(View()) && ran in rans
      modifies this`ranUePool, this`usedIds, this`connected, this`idle, rans`ranUeList, ranUes`amfUe, ues`ranUe
      ensures View() == RemoveListed(old(View()), Slot(ran, id))
    {
      Look();
      LookAtRan(ran, id);
      hide View;
      if id in ran.ranUeList {
        Remove(ran.ranUeList[id]);
      }
    }

    // AmfRan.RemoveAllRanUe: Range visits each key of the list once, in any order,
    // while Remove takes entries away.
    method RemoveAllRanUe(ran: AmfRan) returns (ghost order: seq<int>)
      requires Indexed(View()) && ran in rans
      modifies this`ranUePool, this`usedIds, this`connected, this`idle, rans`ranUeList, ranUes`amfUe, ues`ranUe
      ensures View() == RemoveAll(old(View()), ran, order)
      ensures ran.ranUeList == map[]
    {
      hide View, Closed, Pooled, ListedSoundly, RemoveListed;
      order := [];
      var keys := ran.ranUeList.Keys;
      ghost var all, g := keys, View();
      forall id ensures Slot(ran, id) in g.lists <==> id in all {
        LookAtRan(ran, id);
      }
      while keys != {}
        invariant Closed(View())
        invariant View() == RemoveAll(g, ran, order)
        invariant forall id :: id in keys <==> id in all && id !in order
        decreases keys
      {
        var id := AnyOf(keys);
        keys := keys - {id};
        RemoveListedRanUe(ran, id);
        assert (order + [id])[..|order + [id]| - 1] == order;
        order := order + [id];
      }
      RemoveAllEmptiesTheList(g, ran, order);
      NothingLeft(g.lists, ran, order);
    }

    lemma NothingLeft(lists: map<Slot, RanUe>, ran: AmfRan, order: seq<int>)
      requires ran in rans
      requires View().lists == lists - (set id | id in order :: Slot(ran, id))
      requires forall id :: Slot(ran, id) in lists ==> id in order
      ensures ran.ranUeList == map[]
    {
      forall id ensures id !in ran.ranUeList {
        LookAtRan(ran, id);
      }
    }

    // handleInitialUEMessageMain, before the NAS message is looked at: an old
    // connection under the same RAN id is detached and removed, and a new one made.
    method ReplaceRanUe(ran: AmfRan, ranId: int) returns (result: Option<RanUe>)
      requires Closed(View()) && ran in rans
      modifies this`ranUes, this`ranUePool, this`usedIds, this`connected, this`idle,
               rans`ranUeList, ranUes`amfUe, ues`ranUe
      ensures var g := Forget(old(View()), Slot(ran, ranId));
        if result.None? then View() == g
        else var r := result.value;
             && fresh(r) && ranUes == old(ranUes) + {r} && r.amfUeNgapId !in g.used
             && View() == Registry.NewRanUe(g, ran, ranId, r.amfUeNgapId, r)
    {
      Look();
      LookAtRan(ran, ranId);
      if ranId in ran.ranUeList {
        var ranUe := ran.ranUeList[ranId];
        LookAtConn(ranUe);
        DetachBothAndRemove(ran, ranUe);
      }
      Look();
      hide View;
      result := NewRanUe(ran, ranId);
    }

    method DetachBothAndRemove(ran: AmfRan, r: RanUe)
      requires Closed(View()) && ran in rans && r in ranUes
      modifies this`ranUePool, this`usedIds, this`connected, this`idle, rans`ranUeList, r`amfUe, ues`ranUe
      ensures View() == DetachAndRemove(old(View()), ran, r)
    {
      Look();
      LookAtConn(r);
      LookAtRan(ran, r.ranUeNgapId);
      hide View;
      if r.amfUe != null {
        DetachRanUe(r.amfUe, ran.anType);
        DetachAmfUe(r);
      }
      Remove(r);
    }
  }
}
