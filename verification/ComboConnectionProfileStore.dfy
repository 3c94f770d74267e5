/** The stores as running objects: every operation of a combination is a loop over its stores,
    writing through to the shared files behind them. */
module ComboConnectionProfileStore {
  import opened Wrappers
  import opened ProfileStores
  import opened ProfileStoreTheorems

  class Backing {
    var world: World

    constructor (world: World)
      ensures this.world == world
    {
      this.world := world;
    }

    method LoadProfile(s: Store, name: string) returns (data: Option<Data>)
      ensures data == Load(world, s, name)
      decreases s
    {
      match s {
        case Single(ref) =>
          data := LoadSingle(At(world, ref), name);
        case Combo(stores) =>
          data := None;
          var rest := stores;
          while rest.Cons?
            invariant rest == stores || rest < stores
            invariant data.Some? ==> data.value.Truthy?
            invariant LoadFirst(world, stores, name) == if data.Some? then data else LoadFirst(world, rest, name)
            decreases rest
          {
            if data.None? {
              data := LoadProfile(rest.head, name);
              if data == Some(Falsy) {
                data := None;
              }
            }
            rest := rest.tail;
          }
      }
    }

    method LoadProfiles(s: Store) returns (profiles: map<string, Data>)
      ensures profiles == LoadAll(world, s)
      decreases s
    {
      match s {
        case Single(ref) =>
          profiles := At(world, ref).profiles;
        case Combo(stores) =>
          profiles := map[];
          var rest := stores;
          while rest.Cons?
            invariant rest == stores || rest < stores
            invariant LoadEach(world, stores, map[]) == LoadEach(world, rest, profiles)
            decreases rest
          {
            var theirs := LoadProfiles(rest.head);
            profiles := theirs + profiles;
            rest := rest.tail;
          }
      }
    }

    method SaveProfile(s: Store, name: string, d: Data) returns (saved: bool)
      modifies this
      ensures (world, saved) == Save(old(world), s, name, d)
      ensures OnlyName(old(world), world, name) && (!saved ==> world == old(world))
      decreases s
    {
      SaveLeavesOthers(world, s, name, d);
      SaveGoesToFirstAccepting(world, s, name, d);
      match s {
        case Single(ref) =>
          var c := At(world, ref);
          saved := Accepts(c);
          if saved {
            world := world[ref := c.(profiles := c.profiles[name := d])];
          }
        case Combo(stores) =>
          saved := false;
          var rest := stores;
          while rest.Cons?
            invariant rest == stores || rest < stores
            invariant SaveFirst(old(world), stores, name, d) ==
                        if saved then (world, true) else SaveFirst(world, rest, name, d)
            decreases rest
          {
            if !saved {
              saved := SaveProfile(rest.head, name, d);
            }
            rest := rest.tail;
          }
      }
    }

    method DeleteProfile(s: Store, name: string)
      modifies this
      ensures world == Delete(old(world), s, name)
      ensures OnlyName(old(world), world, name)
      decreases s
    {
      DeleteLeavesOthers(world, s, name);
      match s {
        case Single(ref) =>
          var c := At(world, ref);
          if Accepts(c) {
            world := world[ref := c.(profiles := c.profiles - {name})];
          }
        case Combo(stores) =>
          var rest := stores;
          while rest.Cons?
            invariant rest == stores || rest < stores
            invariant DeleteEach(old(world), stores, name) == DeleteEach(world, rest, name)
            decreases rest
          {
            DeleteProfile(rest.head, name);
            rest := rest.tail;
          }
      }
    }
  }
}
