/**
 * The protocol registry (ProtocolFactory, AbstractProtocol and its three subclasses).
 *
 * The factory creates the web-service and REST protocols up front; the default protocol and the map
 * of current protocols are filled lazily, when beans are provided. A bean lists protocol names; an
 * unknown name stops the call part-way.
 */
module ProtocolRegistry {
  import opened Sequences

  /** Protocol names: "default", "webservice", "restful", and every other text. */
  datatype Name = Default | WebService | Restful | Other(text: string)

  datatype Url = Url(host: string, port: int, scheme: string, path: string)

  /** `protocols` is `None` when the bean was built without a list. */
  datatype Bean = Bean(name: string, protocols: Option<seq<Name>>)

  datatype Outcome = Done | UnknownProtocol(name: Name) | NullPointer

  // ----- what a call reaches ---------------------------------------------------------------

  predicate Known(n: Name) {
    !n.Other?
  }

  /** The names before the first unknown one. */
  function Reached(names: seq<Name>): seq<Name> {
    if names == [] || !Known(names[0]) then [] else [names[0]] + Reached(names[1..])
  }

  /** Every bean reaches the default protocol first. */
  predicate Reaches(b: Bean, n: Name) {
    n == Default || (b.protocols.Some? && n in Reached(b.protocols.value))
  }

  function OutcomeOf(b: Bean): Outcome {
    match b.protocols
    case None => NullPointer
    case Some(names) =>
      var k := |Reached(names)|;
      if k < |names| then UnknownProtocol(names[k]) else Done
  }

  /** The names of the beans whose list reached protocol `n`. */
  function NamesReaching(beans: seq<Bean>, n: Name): set<string> {
    set b | b in beans && Reaches(b, n) :: b.name
  }

  lemma {:induction false} ReachedIsKnownPrefix(names: seq<Name>)
    ensures Reached(names) <= names
    ensures forall i :: 0 <= i < |Reached(names)| ==> Known(names[i])
    ensures |Reached(names)| < |names| ==> !Known(names[|Reached(names)|])
  {
    if names != [] && Known(names[0]) {
      ReachedIsKnownPrefix(names[1..]);
      assert names == [names[0]] + names[1..];
    }
  }

  /** `Reached` is the only prefix of known names that ends at an unknown name or at the end. */
  lemma {:induction false} ReachedUnique(names: seq<Name>, k: int)
    requires 0 <= k <= |names| && (forall i :: 0 <= i < k ==> Known(names[i])) && (k < |names| ==> !Known(names[k]))
    ensures Reached(names) == names[..k]
  {
    ReachedIsKnownPrefix(names);
    var r := Reached(names);
    assert |r| == k;
  }

  /** The name is the first one of the bean's list that no protocol has. */
  ghost predicate FirstUnknown(b: Bean, n: Name) {
    b.protocols.Some? && !Known(n) &&
    exists k :: 0 <= k < |b.protocols.value| && b.protocols.value[k] == n && forall i :: 0 <= i < k ==> Known(b.protocols.value[i])
  }

  /** A call is done exactly if every listed name is known, and otherwise names the first unknown one. */
  lemma OutcomeExact(b: Bean)
    ensures OutcomeOf(b) == NullPointer <==> b.protocols == None
    ensures OutcomeOf(b) == Done <==> b.protocols.Some? && forall n :: n in b.protocols.value ==> Known(n)
    ensures OutcomeOf(b).UnknownProtocol? ==> FirstUnknown(b, OutcomeOf(b).name)
  {
    if b.protocols.Some? {
      var names := b.protocols.value;
      ReachedIsKnownPrefix(names);
      var k := |Reached(names)|;
      if k < |names| {
        assert names[k] in names;
      }
    }
  }

  lemma NamesReachingAdd(beans: seq<Bean>, b: Bean, n: Name)
    ensures NamesReaching(beans + [b], n) == NamesReaching(beans, n) + (if Reaches(b, n) then {b.name} else {})
  {
    assert forall x :: x in beans + [b] <==> x in beans || x == b;
    var l, r := NamesReaching(beans + [b], n), NamesReaching(beans, n) + (if Reaches(b, n) then {b.name} else {});
    forall x | x in r ensures x in l {
      if x in NamesReaching(beans, n) {
        var c :| c in beans && Reaches(c, n) && c.name == x;
        assert c in beans + [b];
      } else {
        assert b in beans + [b];
      }
    }
  }

  // ----- one protocol ----------------------------------------------------------------------

  class Protocol {
    const name: Name
    const defaultUrl: Option<Url>
    var providers: set<string>
    var consumers: set<string>
    var url: Option<Url>
    /** Restful only: a resource class has been registered with the server factory. */
    var resources: bool
    /** A server accepts requests: web services open one per bean, REST opens one at start. */
    var serving: bool

    constructor (name: Name, defaultUrl: Option<Url>)
      ensures this.name == name && this.defaultUrl == defaultUrl
      ensures providers == {} && consumers == {} && url == None && !resources && !serving
    {
      this.name := name;
      this.defaultUrl := defaultUrl;
      providers, consumers, url, resources, serving := {}, {}, None, false, false;
    }

    method GetUrl() returns (u: Option<Url>)
      modifies this`url
      ensures url == (if old(url) == None then defaultUrl else old(url)) && u == url
    {
      if url == None {
        url := defaultUrl;
      }
      u := url;
    }

    method Provide(bean: string)
      modifies this
      ensures providers == old(providers) + {bean} && consumers == old(consumers)
      ensures url == if old(url) == None then defaultUrl else old(url)
      ensures resources == (old(resources) || name == Restful) && serving == (old(serving) || name == WebService)
    {
      providers := providers + {bean};
      var u := GetUrl();
      if name == Restful {
        resources := true;
      } else if name == WebService {
        serving := true;
      }
    }

    method Consume(bean: string)
      modifies this`consumers
      ensures consumers == old(consumers) + {bean}
    {
      consumers := consumers + {bean};
    }

    method Start()
      modifies this`serving
      ensures serving == (old(serving) || (name == Restful && resources))
    {
      if name == Restful && resources {
        serving := true;
      }
    }
  }

  // ----- the factory -----------------------------------------------------------------------

  class ProtocolFactory {
    var protocols: map<Name, Protocol>
    var currentProtocols: map<Name, Protocol>
    ghost var provided: seq<Bean>
    ghost var consumed: seq<string>
    /** The protocol objects the two maps lead to. */
    ghost var objects: set<Protocol>

    /** The two built-in protocols sit under their own names. */
    ghost predicate BuiltIn()
      reads this
    {
      && protocols.Keys == {WebService, Restful}
      && protocols[WebService].name == WebService && protocols[Restful].name == Restful
      && protocols[WebService] in objects && protocols[Restful] in objects
    }

    /** Current protocols sit under their own names; the non-default ones are the built-in objects. */
    ghost predicate Linked()
      reads this
    {
      && BuiltIn() && currentProtocols.Keys <= {Default, WebService, Restful}
      && (Default in currentProtocols ==> currentProtocols[Default].name == Default && currentProtocols[Default] in objects)
      && (WebService in currentProtocols ==> currentProtocols[WebService] == protocols[WebService])
      && (Restful in currentProtocols ==> currentProtocols[Restful] == protocols[Restful])
    }

    /** A protocol's record: who provides and consumes through it, and what follows from that. */
    static ghost predicate Records(p: Protocol, providers: set<string>, consumers: set<string>)
      reads p
    {
      && p.providers == providers && p.consumers == consumers
      && (p.resources <==> p.name == Restful && providers != {})
      && (p.name == WebService && providers != {} ==> p.serving)
      && (providers == {} ==> !p.serving)
      && (providers != {} && p.defaultUrl.Some? ==> p.url.Some?)
    }

    /** A built-in protocol is current exactly when some bean reached it. */
    ghost predicate Settled(n: Name, names: set<string>)
      requires n == WebService || n == Restful
      reads this, objects
    {
      n in protocols && protocols[n] in objects && Records(protocols[n], names, {}) && (n in currentProtocols <==> names != {})
    }

    ghost predicate DefaultSettled(names: set<string>, users: set<string>)
      reads this, objects
    {
      Default in currentProtocols && currentProtocols[Default] in objects && Records(currentProtocols[Default], names, users)
    }

    ghost predicate Valid()
      reads this, objects
    {
      && Linked()
      && Settled(WebService, NamesReaching(provided, WebService)) && Settled(Restful, NamesReaching(provided, Restful))
      && (Default in currentProtocols ==> DefaultSettled(NamesReaching(provided, Default), Elements(consumed)))
      && (Default !in currentProtocols ==> provided == [] && consumed == [])
    }

    constructor (host: string)
      ensures Valid() && provided == [] && consumed == [] && currentProtocols == map[]
      ensures protocols.Keys == {WebService, Restful}
      ensures protocols[WebService].defaultUrl == Some(Url(host, 9800, "http", "ws"))
      ensures protocols[Restful].defaultUrl == Some(Url(host, 9900, "http", "rest"))
      ensures fresh(objects)
    {
      var web := new Protocol(WebService, Some(Url(host, 9800, "http", "ws")));
      var rest := new Protocol(Restful, Some(Url(host, 9900, "http", "rest")));
      protocols := map[WebService := web, Restful := rest];
      currentProtocols := map[];
      provided, consumed := [], [];
      objects := {web, rest};
    }

    method GetDefaultProtocol() returns (p: Protocol)
      requires Valid()
      modifies this`currentProtocols, this`objects
      ensures Valid() && Default in currentProtocols && p == currentProtocols[Default]
      ensures old(currentProtocols).Keys + {Default} == currentProtocols.Keys
      ensures fresh(objects - old(objects))
    {
      if Default in currentProtocols {
        p := currentProtocols[Default];
      } else {
        p := new Protocol(Default, None);
        currentProtocols := currentProtocols[p.name := p];
        objects := objects + {p};
      }
    }

    method Consume(bean: string)
      requires Valid()
      modifies this`currentProtocols, this`objects, this`consumed, objects
      ensures Valid() && consumed == old(consumed) + [bean] && provided == old(provided)
      ensures fresh(objects - old(objects))
    {
      var p := GetDefaultProtocol();
      p.Consume(bean);
      consumed := consumed + [bean];
      assert Elements(consumed) == Elements(old(consumed)) + {bean};
    }

    /** What the names settled so far are, part-way through a call that provides `bean`. */
    ghost function NamesNow(n: Name, bean: string, done: seq<Name>): set<string>
      reads this
    {
      NamesReaching(provided, n) + (if n == Default || n in done then {bean} else {})
    }

    ghost predicate Midway(bean: string, done: seq<Name>)
      reads this, objects
    {
      && Linked()
      && Settled(WebService, NamesNow(WebService, bean, done)) && Settled(Restful, NamesNow(Restful, bean, done))
      && DefaultSettled(NamesNow(Default, bean, done), Elements(consumed))
    }

    /** One round of the loop of `provide`. */
    method ProvideThrough(bean: string, name: Name, ghost done: seq<Name>) returns (found: bool)
      requires Midway(bean, done)
      modifies this`currentProtocols, objects
      ensures found <==> Known(name)
      ensures found ==> Midway(bean, done + [name])
      ensures !found ==> Midway(bean, done)
    {
      var protocol: Protocol;
      if name in currentProtocols {
        protocol := currentProtocols[name];
      } else if name in protocols {
        protocol := protocols[name];
        currentProtocols := currentProtocols[protocol.name := protocol];
      } else {
        return false;
      }
      assert protocol.name == name;
      protocol.Provide(bean);
      assert forall n :: n in done + [name] <==> n in done || n == name;
      return true;
    }

    /** The loop of `provide` over the bean's protocol names. */
    method ProvideListed(bean: string, names: seq<Name>) returns (unknown: Option<Name>)
      requires Midway(bean, [])
      modifies this`currentProtocols, objects
      ensures Midway(bean, Reached(names))
      ensures unknown == if |Reached(names)| < |names| then Some(names[|Reached(names)|]) else None
    {
      for i := 0 to |names|
        invariant Midway(bean, names[..i]) && protocols == old(protocols)
        invariant forall j :: 0 <= j < i ==> Known(names[j])
      {
        assert names[..i + 1] == names[..i] + [names[i]];
        var found := ProvideThrough(bean, names[i], names[..i]);
        if !found {
          ReachedUnique(names, i);
          return Some(names[i]);
        }
      }
      ReachedUnique(names, |names|);
      return None;
    }

    method Provide(bean: Bean) returns (outcome: Outcome)
      requires Valid()
      modifies this`currentProtocols, this`objects, this`provided, objects
      ensures Valid() && provided == old(provided) + [bean] && consumed == old(consumed)
      ensures outcome == OutcomeOf(bean)
      ensures outcome == NullPointer <==> bean.protocols == None
      ensures outcome == Done <==> bean.protocols.Some? && forall n :: n in bean.protocols.value ==> Known(n)
      ensures outcome.UnknownProtocol? ==> FirstUnknown(bean, outcome.name)
      ensures fresh(objects - old(objects))
    {
      ProvideDefault(bean.name);
      if bean.protocols == None {
        Finish(bean, []);
        OutcomeExact(bean);
        provided := provided + [bean];
        return NullPointer;
      }
      var names := bean.protocols.value;
      var unknown := ProvideListed(bean.name, names);
      Finish(bean, Reached(names));
      OutcomeExact(bean);
      provided := provided + [bean];
      outcome := if unknown.Some? then UnknownProtocol(unknown.value) else Done;
    }

    /** `getDefaultProtocol().provide(provider)` */
    method ProvideDefault(bean: string)
      requires Valid()
      modifies this`currentProtocols, this`objects, objects
      ensures Midway(bean, [])
      ensures fresh(objects - old(objects))
    {
      var p := GetDefaultProtocol();
      p.Provide(bean);
    }

    /** Once a call stops, its bean counts as having reached exactly the protocols settled so far. */
    lemma Finish(bean: Bean, done: seq<Name>)
      requires done == if bean.protocols.Some? then Reached(bean.protocols.value) else []
      ensures forall n :: NamesNow(n, bean.name, done) == NamesReaching(provided + [bean], n)
    {
      forall n ensures NamesNow(n, bean.name, done) == NamesReaching(provided + [bean], n) {
        NamesReachingAdd(provided, bean, n);
      }
    }

    /** Every built-in protocol outside `keys` runs exactly when it has a provider. */
    ghost predicate StartedBut(keys: set<Name>)
      reads this, objects
    {
      Valid() && forall n :: n in protocols && n !in keys ==> (protocols[n].serving <==> NamesReaching(provided, n) != {})
    }

    /** Starts every built-in protocol, in whatever order the keys come. */
    method Start()
      requires Valid()
      modifies objects
      ensures Valid()
      ensures forall n :: n in protocols ==> (protocols[n].serving <==> NamesReaching(provided, n) != {})
    {
      var keys := protocols.Keys;
      while keys != {}
        invariant keys <= protocols.Keys && StartedBut(keys)
        decreases |keys|
      {
        var key :| key in keys;
        StartOne(key, keys);
        keys := keys - {key};
      }
    }

    method StartOne(key: Name, ghost keys: set<Name>)
      requires key in protocols && StartedBut(keys)
      modifies protocols[key]
      ensures StartedBut(keys - {key})
    {
      assert key in protocols.Keys;
      protocols[key].Start();
    }
  }
}
