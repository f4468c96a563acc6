/**
 One camera (`NipcaCameraDevice`): the attributes scraped from its status
 pages, the probing of its motion-detection page, the values derived from
 the attributes, and the events fed by its notify stream.

 An HTTP GET is the parameter `fetch`, from a URL to the lines of the
 response, already decoded.
 */
module Device {
  import opened Text
  import Protocol
  import opened Listener

  const Domain := "nipca"
  /** `DATA_NIPCA`: the key under which a device is cached. */
  const DataNipca := "nipca.{}"

  const CommonInfo := "{}/common/info.cgi"
  const StreamInfo := "{}/config/stream_info.cgi"
  /** The motion pages, in the order they are tried. */
  const MotionInfo: seq<string> := ["{}/config/motion.cgi", "{}/motion.cgi"]
  const StillImage := "{}/image/jpeg.cgi"
  const NotifyStream := "{}/config/notify_stream.cgi"

  /** The host framework's configuration keys the device-info dictionaries set. */
  const ConfName := "name"
  const ConfMjpegUrl := "mjpeg_url"
  const ConfStillImageUrl := "still_image_url"

  /** A URL template: `{}` for the camera's base URL, then brace-free text. */
  predicate Template(t: string)
  {
    |t| >= 2 && t[..2] == "{}" && NoBraces(t[2..])
  }

  lemma TemplateUrl(t: string, base: string)
    requires Template(t)
    ensures Format(t, base) == Some(base + t[2..])
  {
    assert t == [] + "{}" + t[2..];
    FormatField([], t[2..], base);
    assert [] + base + t[2..] == base + t[2..];
  }

  lemma TemplatesWellFormed()
    ensures Template(CommonInfo) && Template(StreamInfo) && Template(StillImage) && Template(NotifyStream)
    ensures forall s :: s in MotionInfo ==> Template(s)
  {
    CommonInfoIsTemplate();
    StreamInfoIsTemplate();
    StillImageIsTemplate();
    NotifyStreamIsTemplate();
    FirstMotionInfoIsTemplate();
    SecondMotionInfoIsTemplate();
  }

  lemma CommonInfoIsTemplate()
    ensures Template(CommonInfo)
  {
  }

  lemma StreamInfoIsTemplate()
    ensures Template(StreamInfo)
  {
  }

  lemma StillImageIsTemplate()
    ensures Template(StillImage)
  {
  }

  lemma NotifyStreamIsTemplate()
    ensures Template(NotifyStream)
  {
  }

  lemma FirstMotionInfoIsTemplate()
    ensures Template(MotionInfo[0])
  {
  }

  lemma SecondMotionInfoIsTemplate()
    ensures Template(MotionInfo[1])
  {
  }


  /** `motion_info_url`: `None`, the motion page that answered, or `'disabled'`. */
  datatype Probe = Unprobed | Chosen(suffix: string) | Disabled

  function Get(m: map<string, string>, k: string): Option<string>
  {
    if k in m then Some(m[k]) else None
  }

  /** What `_nipca(suffix)` returns: the parsed lines of the page at the formatted URL. */
  function Query(base: string, fetch: string -> seq<string>, suffix: string): map<string, string>
    requires Template(suffix)
  {
    TemplateUrl(suffix, base);
    Protocol.ParseSpec(fetch(Format(suffix, base).value))
  }

  /** The first of `suffixes` whose page parses to a non-empty dictionary. */
  function FirstAnswering(base: string, fetch: string -> seq<string>, suffixes: seq<string>): (r: Option<string>)
    requires forall s :: s in suffixes ==> Template(s)
    ensures r.Some? ==> r.value in suffixes && Query(base, fetch, r.value) != map[]
  {
    if suffixes == [] then None
    else if Query(base, fetch, suffixes[0]) != map[] then Some(suffixes[0])
    else FirstAnswering(base, fetch, suffixes[1..])
  }

  /**
   The probe finds the first answering page: every page before it answered
   with nothing. It finds none exactly when every page answered with nothing.
   */
  lemma {:induction false} FirstAnsweringSpec(base: string, fetch: string -> seq<string>, suffixes: seq<string>)
    requires forall s :: s in suffixes ==> Template(s)
    ensures FirstAnswering(base, fetch, suffixes).Some? ==>
              exists i :: 0 <= i < |suffixes| && suffixes[i] == FirstAnswering(base, fetch, suffixes).value
                          && Query(base, fetch, suffixes[i]) != map[]
                          && forall j :: 0 <= j < i ==> Query(base, fetch, suffixes[j]) == map[]
    ensures FirstAnswering(base, fetch, suffixes).None? <==>
              forall i :: 0 <= i < |suffixes| ==> Query(base, fetch, suffixes[i]) == map[]
  {
    if suffixes != [] {
      var tail := suffixes[1..];
      assert forall s :: s in tail ==> s in suffixes;
      FirstAnsweringSpec(base, fetch, tail);
      if Query(base, fetch, suffixes[0]) == map[] {
        assert forall i :: 1 <= i < |suffixes| ==> suffixes[i] == tail[i - 1];
        if FirstAnswering(base, fetch, tail).Some? {
          var i :| 0 <= i < |tail| && tail[i] == FirstAnswering(base, fetch, tail).value
                   && Query(base, fetch, tail[i]) != map[]
                   && forall j :: 0 <= j < i ==> Query(base, fetch, tail[j]) == map[];
          assert suffixes[i + 1] == tail[i];
        }
      }
    }
  }

  /** The attributes and probe state after `update_info`. */
  function Refresh(attrs: map<string, string>, probe: Probe, base: string, fetch: string -> seq<string>)
    : (map<string, string>, Probe)
    requires probe.Chosen? ==> probe.suffix in MotionInfo
  {
    TemplatesWellFormed();
    var merged := attrs + Query(base, fetch, CommonInfo) + Query(base, fetch, StreamInfo);
    match probe
    case Unprobed =>
      (match FirstAnswering(base, fetch, MotionInfo)
       case None => (merged, Disabled)
       case Some(s) => (merged + Query(base, fetch, s), Chosen(s)))
    case Chosen(s) => (merged + Query(base, fetch, s), probe)
    case Disabled => (merged, Disabled)
  }

  /**
   The first refresh settles the probe: afterwards it names the first motion
   page that answered, every earlier one having answered with nothing, or it
   is disabled, which happens exactly when every motion page answered with
   nothing. It is never unprobed again.
   */
  lemma FirstRefreshProbes(attrs: map<string, string>, base: string, fetch: string -> seq<string>)
    ensures Refresh(attrs, Unprobed, base, fetch).1 != Unprobed
    ensures (TemplatesWellFormed();
             Refresh(attrs, Unprobed, base, fetch).1.Chosen? ==>
               exists i :: 0 <= i < |MotionInfo| && MotionInfo[i] == Refresh(attrs, Unprobed, base, fetch).1.suffix
                           && Query(base, fetch, MotionInfo[i]) != map[]
                           && forall j :: 0 <= j < i ==> Query(base, fetch, MotionInfo[j]) == map[])
    ensures (TemplatesWellFormed();
             Refresh(attrs, Unprobed, base, fetch).1 == Disabled <==>
               forall i :: 0 <= i < |MotionInfo| ==> Query(base, fetch, MotionInfo[i]) == map[])
  {
    TemplatesWellFormed();
    FirstAnsweringSpec(base, fetch, MotionInfo);
  }

  /** Once settled, the probe stays as it is. */
  lemma LaterRefreshKeepsProbe(attrs: map<string, string>, probe: Probe, base: string, fetch: string -> seq<string>)
    requires probe != Unprobed
    requires probe.Chosen? ==> probe.suffix in MotionInfo
    ensures Refresh(attrs, probe, base, fetch).1 == probe
  {
  }

  /** The motion page whose answer a refresh merges, if any. */
  function MotionPart(base: string, fetch: string -> seq<string>, probe: Probe): map<string, string>
    requires probe.Chosen? ==> probe.suffix in MotionInfo
  {
    TemplatesWellFormed();
    if probe.Chosen? then Query(base, fetch, probe.suffix) else map[]
  }

  /**
   Merge order: a refresh lays the common page, then the stream page, then
   the chosen motion page over the old attributes; a later source wins, and a
   key no source mentions keeps its old value.
   */
  lemma RefreshMerge(attrs: map<string, string>, probe: Probe, base: string, fetch: string -> seq<string>, k: string)
    requires probe.Chosen? ==> probe.suffix in MotionInfo
    ensures Refresh(attrs, probe, base, fetch).1.Chosen? ==> Refresh(attrs, probe, base, fetch).1.suffix in MotionInfo
    ensures
      var c := (TemplatesWellFormed(); Query(base, fetch, CommonInfo));
      var s := (TemplatesWellFormed(); Query(base, fetch, StreamInfo));
      var r := Refresh(attrs, probe, base, fetch);
      var m := MotionPart(base, fetch, r.1);
      && (k in r.0 <==> k in attrs || k in c || k in s || k in m)
      && (k in m ==> r.0[k] == m[k])
      && (k !in m && k in s ==> r.0[k] == s[k])
      && (k !in m && k !in s && k in c ==> r.0[k] == c[k])
      && (k !in m && k !in s && k !in c && k in attrs ==> r.0[k] == attrs[k])
  {
    TemplatesWellFormed();
  }

  /**
   A settled probe fixes which pages a refresh reads: with a chosen motion
   page only the common, stream and that motion page; when disabled, no
   motion page. Two servers that agree on those pages give the same refresh.
   */
  lemma LaterRefreshQueriesOnly(attrs: map<string, string>, probe: Probe, base: string,
                                fetch1: string -> seq<string>, fetch2: string -> seq<string>)
    requires probe != Unprobed
    requires probe.Chosen? ==> probe.suffix in MotionInfo
    requires fetch1(base + "/common/info.cgi") == fetch2(base + "/common/info.cgi")
    requires fetch1(base + "/config/stream_info.cgi") == fetch2(base + "/config/stream_info.cgi")
    requires probe.Chosen? ==> fetch1(base + probe.suffix[2..]) == fetch2(base + probe.suffix[2..])
    ensures Refresh(attrs, probe, base, fetch1) == Refresh(attrs, probe, base, fetch2)
  {
    TemplatesWellFormed();
    TemplateUrl(CommonInfo, base);
    TemplateUrl(StreamInfo, base);
    assert CommonInfo[2..] == "/common/info.cgi";
    assert StreamInfo[2..] == "/config/stream_info.cgi";
    if probe.Chosen? {
      TemplateUrl(probe.suffix, base);
    }
  }

  /** `'{} Motion Sensor'.format(name)`. */
  function SensorName(name: string): (r: string)
    ensures r == name + " Motion Sensor"
  {
    FormatField([], " Motion Sensor", name);
    assert [] + "{}" + " Motion Sensor" == "{} Motion Sensor";
    assert [] + name + " Motion Sensor" == name + " Motion Sensor";
    Format("{} Motion Sensor", name).value
  }

  class NipcaCameraDevice {
    const url: string
    const conf: map<string, string>
    /** The number of empty polls in a row after which the notify stream is given up: 30 seconds over the update interval, rounded up. */
    const cycles: nat
    var motionInfoUrl: Probe
    var client: Option<State>
    var events: map<string, string>
    var attributes: map<string, string>

    ghost predicate Valid()
      reads this
    {
      && (motionInfoUrl.Chosen? ==> motionInfoUrl.suffix in MotionInfo)
      && (client.Some? && client.value.Running? ==> client.value.cleaned <= cycles)
    }

    constructor (url: string, conf: map<string, string>, cycles: nat)
      ensures Valid()
      ensures this.url == url && this.conf == conf && this.cycles == cycles
      ensures motionInfoUrl == Unprobed && client == None
      ensures events == map[] && attributes == map[]
    {
      this.url := url;
      this.conf := conf;
      this.cycles := cycles;
      motionInfoUrl := Unprobed;
      client := None;
      events := map[];
      attributes := map[];
    }

    /** `name`: the `name` attribute; `None` stands for the KeyError when it is missing. */
    function Name(): (r: Option<string>)
      reads this
      ensures r.Some? <==> "name" in attributes
      ensures r.Some? ==> r.value == attributes["name"]
    {
      Get(attributes, "name")
    }

    /** `mjpeg_url`: the base URL followed by the `vprofileurl1` attribute; `None` when that is missing. */
    function MjpegUrl(): (r: Option<string>)
      reads this
      ensures r.Some? <==> "vprofileurl1" in attributes
      ensures r.Some? ==> r.value == url + attributes["vprofileurl1"]
    {
      match Get(attributes, "vprofileurl1")
      case None => None
      case Some(profile) => Some(url + profile)
    }

    /**
     `_build_url`: the template with the base URL in place of its `{}`. Both
     branches compute the same `Format`; the test only marks where the
     TemplateUrl lemma applies, which gives the ensures.
     */
    function BuildUrl(suffix: string): (r: Option<string>)
      ensures Template(suffix) ==> r == Some(url + suffix[2..])
    {
      if Template(suffix) then TemplateUrl(suffix, url); Format(suffix, url)
      else Format(suffix, url)
    }

    function StillImageUrl(): (r: string)
      ensures r == url + "/image/jpeg.cgi"
    {
      TemplatesWellFormed();
      assert StillImage[2..] == "/image/jpeg.cgi";
      BuildUrl(StillImage).value
    }

    function NotifyStreamUrl(): (r: string)
      ensures r == url + "/config/notify_stream.cgi"
    {
      TemplatesWellFormed();
      assert NotifyStream[2..] == "/config/notify_stream.cgi";
      BuildUrl(NotifyStream).value
    }

    /** Motion detection is on when `enable` is `yes` or `motiondetectionenable` is `1`; a missing key counts as off. */
    function MotionDetectionEnabled(): (b: bool)
      reads this
      ensures b <==> (|| ("enable" in attributes && attributes["enable"] == "yes")
                      || ("motiondetectionenable" in attributes && attributes["motiondetectionenable"] == "1"))
    {
      if Get(attributes, "enable") == Some("yes") then true
      else if Get(attributes, "motiondetectionenable") == Some("1") then true
      else false
    }

    /**
     `camera_device_info`: the configuration with the platform, the base URL,
     the name, the MJPEG URL and the still-image URL laid over it; `None` when
     the name or the video profile is missing.
     */
    function CameraDeviceInfo(): (r: Option<map<string, string>>)
      reads this
      ensures r.Some? <==> "name" in attributes && "vprofileurl1" in attributes
      ensures r.Some? ==> r.value.Keys == conf.Keys + {"platform", "url", ConfName, ConfMjpegUrl, ConfStillImageUrl}
      ensures r.Some? ==> && r.value["platform"] == Domain
                          && r.value["url"] == url
                          && r.value[ConfName] == attributes["name"]
                          && r.value[ConfMjpegUrl] == url + attributes["vprofileurl1"]
                          && r.value[ConfStillImageUrl] == url + "/image/jpeg.cgi"
      ensures r.Some? ==> forall k :: k in conf && k !in {"platform", "url", ConfName, ConfMjpegUrl, ConfStillImageUrl}
                                      ==> r.value[k] == conf[k]
    {
      match Name()
      case None => None
      case Some(name) =>
        match MjpegUrl()
        case None => None
        case Some(mjpeg) =>
          Some(conf + map["platform" := Domain, "url" := url, ConfName := name,
                          ConfMjpegUrl := mjpeg, ConfStillImageUrl := StillImageUrl()])
    }

    /**
     `motion_device_info`: the configuration with the platform, the base URL
     and the name followed by ` Motion Sensor` laid over it; `None` when the
     name is missing.
     */
    function MotionDeviceInfo(): (r: Option<map<string, string>>)
      reads this
      ensures r.Some? <==> "name" in attributes
      ensures r.Some? ==> r.value.Keys == conf.Keys + {"platform", "url", ConfName}
      ensures r.Some? ==> && r.value["platform"] == Domain
                          && r.value["url"] == url
                          && r.value[ConfName] == attributes["name"] + " Motion Sensor"
      ensures r.Some? ==> forall k :: k in conf && k !in {"platform", "url", ConfName} ==> r.value[k] == conf[k]
    {
      match Name()
      case None => None
      case Some(name) =>
        Some(conf + map["platform" := Domain, "url" := url, ConfName := SensorName(name)])
    }

    /** `_nipca`: fetch the page at the template's URL and parse its lines. */
    method Nipca(suffix: string, fetch: string -> seq<string>) returns (result: map<string, string>)
      requires Template(suffix)
      ensures result == Query(url, fetch, suffix)
    {
      var target := BuildUrl(suffix);
      result := Protocol.ParseResponse(fetch(target.value));
    }

    /** `update_info`: merge the common, stream and motion pages into the attributes, probing the motion page once. */
    method UpdateInfo(fetch: string -> seq<string>)
      requires Valid()
      modifies this`attributes, this`motionInfoUrl
      ensures Valid()
      ensures (attributes, motionInfoUrl) == Refresh(old(attributes), old(motionInfoUrl), url, fetch)
    {
      TemplatesWellFormed();
      var common := Nipca(CommonInfo, fetch);
      attributes := attributes + common;
      var stream := Nipca(StreamInfo, fetch);
      attributes := attributes + stream;
      if motionInfoUrl == Unprobed {
        ghost var merged := attributes;
        var i := 0;
        while i < |MotionInfo|
          invariant 0 <= i <= |MotionInfo|
          invariant attributes == merged && motionInfoUrl == Unprobed
          invariant FirstAnswering(url, fetch, MotionInfo) == FirstAnswering(url, fetch, MotionInfo[i..])
        {
          assert MotionInfo[i..][1..] == MotionInfo[i + 1..];
          var attrs := Nipca(MotionInfo[i], fetch);
          if attrs != map[] {
            attributes := attributes + attrs;
            motionInfoUrl := Chosen(MotionInfo[i]);
            break;
          }
          i := i + 1;
        }
        if motionInfoUrl == Unprobed {
          motionInfoUrl := Disabled;
        }
      } else if motionInfoUrl != Disabled {
        var attrs := Nipca(motionInfoUrl.suffix, fetch);
        attributes := attributes + attrs;
      }
    }

    /** `manual_update_sensors`: store every entry of `data` in the events. */
    method ManualUpdateSensors(data: map<string, string>)
      modifies this`events
      ensures events == old(events) + data
      ensures forall k :: k in data ==> k in events && events[k] == data[k]
      ensures forall k :: k !in data ==> (k in events <==> k in old(events))
      ensures forall k :: k !in data && k in old(events) ==> events[k] == old(events)[k]
    {
      var keys := data.Keys;
      while keys != {}
        invariant keys <= data.Keys
        invariant events == old(events) + map k | k in data.Keys - keys :: data[k]
        decreases keys
      {
        var key :| key in keys;
        events := events[key := data[key]];
        keys := keys - {key};
      }
      assert (map k | k in data.Keys - {} :: data[k]) == data;
    }

    /**
     The value of one notify line: `yes`/`no` values go through
     ManualUpdateSensors, other values are stored directly; either way the
     key gets the value and nothing else changes.
     */
    method StoreNotifyValue(key: string, value: string)
      modifies this`events
      ensures events == old(events)[key := value]
    {
      if value == "yes" || value == "no" {
        ManualUpdateSensors(map[key := value]);
      } else {
        events := events[key := value];
      }
    }

    /** One line of the notify stream, stripped; empty lines and lines without `=` are ignored. */
    method HandleNotifyLine(raw: string)
      modifies this`events
      ensures events == ApplyLine(old(events), raw)
    {
      var line := Strip(raw);
      if line != [] {
        if '=' in line {
          var kv := SplitFirst(line);
          StoreNotifyValue(kv.0, kv.1);
        }
      }
    }

    /** The inner loop of `_notify_listener`: read the buffered lines one by one. */
    method DrainBuffer(lines: seq<string>)
      modifies this`events
      ensures events == NotifyEvents(old(events), lines)
    {
      var i := 0;
      while i < |lines|
        invariant 0 <= i <= |lines|
        invariant events == Overlay(old(events), NotifyEntries(lines[..i]))
      {
        assert NotifyEntries(lines[..i + 1])[..i] == NotifyEntries(lines[..i]);
        HandleNotifyLine(lines[i]);
        i := i + 1;
      }
      assert lines[..|lines|] == lines;
    }

    /** One pass of the outer loop of `_notify_listener`, from its test to the `yield`. */
    method ResumePass(cleaned: nat, poll: Poll) returns (next: State, outcome: Outcome)
      modifies this`events
      ensures (next, outcome) == Resume(cleaned, poll, cycles)
      ensures events == if outcome == Yielded then NotifyEvents(old(events), poll.lines) else old(events)
    {
      if cleaned < cycles {
        match poll
        case Fail(f) =>
          next, outcome := Exhausted, Raised(f);
        case Ready(lines) =>
          var count := cleaned;
          if |lines| == 0 {
            count := count + 1;
          } else {
            count := 0;
          }
          DrainBuffer(lines);
          next, outcome := Running(count), Yielded;
      } else {
        next, outcome := Exhausted, Stopped;
      }
    }

    /** One `__anext__` on the notify generator, inside `async_timeout.timeout(...)`. */
    method Advance(s: State, a: Attempt) returns (next: State, outcome: Outcome)
      modifies this`events
      ensures (next, outcome) == Step(s, a, cycles)
      ensures events == if outcome == Yielded then NotifyEvents(old(events), a.poll.lines) else old(events)
    {
      match a
      case Refused(f) =>
        next, outcome := s, Raised(f);
      case Resumed(poll) =>
        match s
        case Exhausted =>
          next, outcome := Exhausted, Stopped;
        case Fresh =>
          if poll.Fail? {
            next, outcome := Exhausted, Raised(poll.failure);
          } else {
            next, outcome := ResumePass(0, poll);
          }
        case Running(c) =>
          next, outcome := ResumePass(c, poll);
    }

    /**
     `update_motion_sensors`: create the client if motion detection is on and
     there is none, advance it once, clear it on a timeout, a client error or
     StopAsyncIteration, keep it on a TypeError or RuntimeError, and return
     the events.
     */
    method UpdateMotionSensors(a: Attempt) returns (result: map<string, string>)
      requires Valid()
      modifies this`client, this`events
      ensures Valid()
      ensures client == ClientAfter(old(MotionDetectionEnabled()), old(client), a, cycles)
      ensures var started := Started(old(MotionDetectionEnabled()), old(client));
              events == if started.Some? && Step(started.value, a, cycles).1 == Yielded
                        then NotifyEvents(old(events), a.poll.lines) else old(events)
      ensures result == events
    {
      if MotionDetectionEnabled() && client.None? {
        client := Some(Fresh);
      }
      if client.Some? {
        var next, outcome := Advance(client.value, a);
        match outcome
        case Yielded =>
          client := Some(next);
        case Raised(TypeError) =>
          client := Some(next);
        case Raised(Timeout) =>
          client := None;
        case Raised(ClientError) =>
          client := None;
        case Raised(RuntimeError) =>
          client := Some(next);
        case Stopped =>
          client := None;
      }
      result := events;
    }
  }

  /** The part of `hass.data` that holds the cached devices. */
  class Hub {
    var data: map<string, NipcaCameraDevice>

    constructor ()
      ensures data == map[]
    {
      data := map[];
    }
  }

  /**
   `from_url`: the device cached under `nipca.<url>` if there is one, unchanged;
   otherwise a new device, refreshed once and cached under that key.
   */
  method FromUrl(hass: Hub, conf: map<string, string>, url: string, cycles: nat, fetch: string -> seq<string>)
    returns (device: NipcaCameraDevice)
    modifies hass
    ensures "nipca." + url in old(hass.data) ==> device == old(hass.data)["nipca." + url] && hass.data == old(hass.data)
    ensures "nipca." + url in old(hass.data) ==> unchanged(device)
    ensures "nipca." + url !in old(hass.data) ==>
              && fresh(device) && device.Valid()
              && hass.data == old(hass.data)["nipca." + url := device]
              && device.url == url && device.conf == conf && device.cycles == cycles
              && (device.attributes, device.motionInfoUrl) == Refresh(map[], Unprobed, url, fetch)
              && device.events == map[] && device.client == None
  {
    FormatField("nipca.", [], url);
    assert "nipca." + "{}" + [] == DataNipca;
    var dataName := Format(DataNipca, url).value;
    assert dataName == "nipca." + url;
    if dataName in hass.data {
      device := hass.data[dataName];
    } else {
      device := new NipcaCameraDevice(url, conf, cycles);
      device.UpdateInfo(fetch);
      hass.data := hass.data[dataName := device];
    }
  }
}
