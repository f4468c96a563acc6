# nipca camera integration — verified model of the device core

The integration connects D-Link style IP cameras that speak the vendor
"nipca" CGI protocol to Home Assistant. Its device object,
`NipcaCameraDevice`, scrapes `key=value` status pages into an attribute
dictionary, probes which of two motion-detection pages the camera answers,
derives the stream URLs and the device-info dictionaries from the attributes,
and tails a notify stream whose `key=value` lines update an events
dictionary. This project models that core in Dafny and proves what it does.

- `text.dfy` (module `Text`): the Python string operations the core relies on,
  `str.strip()`, `str.lower()`, `'=' in s` with `s.split('=', 1)`, and
  `str.format` with one positional argument.
- `protocol.dfy` (module `Protocol`): the line parser of `_nipca`. `ParseSpec`
  is the dictionary a response's lines build; `ParseResponse` is the parsing
  loop, proved to compute it.
- `listener.dfy` (module `Listener`): the notify generator `_notify_listener`
  as a state machine (`Fresh`, `Running(cleaned)`, `Exhausted`). `Step` is one
  `__anext__`, `Drive` a run of them. The module also holds the idle counter
  lemmas and the client lifecycle of `update_motion_sensors` (`ClientAfter`).
- `device.dfy` (module `Device`): the class `NipcaCameraDevice`, whose fields
  are the ones the source updates in place (`motionInfoUrl`, `client`, `events`,
  `attributes`). `Refresh` specifies `update_info`. `Hub` stands for the
  part of `hass.data` that caches devices, and `FromUrl` is the cache lookup.

I/O is a parameter. An HTTP GET is `fetch: string -> seq<string>`, from a URL
to the decoded lines of the response. One try at `__anext__` is an `Attempt`.
Either the generator is resumed and the stream delivers a `Poll`, or the code
around `__anext__` raises before the generator resumes (`Refused`). A `Poll`
is either the lines in the buffer (none when the buffer is empty) or the
exception the I/O raises. Python exceptions that the
core does not catch (a `KeyError` on a missing attribute, a malformed format
template) become `None` results.

`motion_info_url` has three states: `None`, a motion page suffix, or the
string `'disabled'`. They become the datatype `Probe` = `Unprobed` |
`Chosen(suffix)` | `Disabled`. The suffixes are fixed templates, so none of
them can be the string `'disabled'`.

`cycles` is `30 / update_interval.total_seconds()`, a float. It becomes a
natural-number constant of the device, the float rounded up. The counter is
an integer, so `cleaned_buffer_count < cycles` holds exactly when it is below
the rounded-up value.

The source runs `_notify_listener` as an async generator, and
`update_motion_sensors` keeps the client after a TypeError or a RuntimeError.
Where that exception comes from decides what happens next:
- Raised inside the generator, it finishes the generator, because a Python
  generator that raises is finished. The kept client is `Exhausted`, and the
  next update that resumes it meets StopAsyncIteration and clears it
  (`ClientKeptOnWarning`).
- Raised before the generator resumes, the generator is untouched. This is a
  TypeError from the `async_timeout.timeout(10, loop=...)` call, or the
  RuntimeError `__anext__` raises on a generator that is already running. The
  kept client is as live as before, and the same failure again keeps it again
  (`ClientKeptOnRefusal`).

## Model

| member | source | states |
|---|---|---|
| Text.Strip | custom_components/nipca/__init__.py:211 | `strip()` returns the slice of the line between an all-whitespace prefix and an all-whitespace suffix. The result neither starts nor ends with whitespace, and it is empty only when the line is all whitespace. |
| Text.IsSpace | custom_components/nipca/__init__.py:211 | The characters `strip()` removes: Python's `str.isspace` set (space, `\t` to `\r`, the separators `\x1c` to `\x1f`, and the Unicode spaces). |
| Text.Lower | custom_components/nipca/__init__.py:214 | `lower()` has the same length and lower-cases each character in place. |
| Text.LowerKeepsEquals | custom_components/nipca/__init__.py:213-214 | Lower-casing adds no `=` and removes none. |
| Text.SplitFirst | custom_components/nipca/__init__.py:213 | `split('=', 1)`: the key has no `=`, and key, `=` and value put back together give the line again. |
| Text.SplitFirstJoin | custom_components/nipca/__init__.py:213 | The converse: `k=v` with no `=` in `k` splits into exactly `(k, v)`, so the value keeps any further `=`. |
| Text.Format | custom_components/nipca/__init__.py:219-220 | `template.format(arg)`: each `{}` takes the one argument, `{{` and `}}` are literal braces, and a second `{}` or a lone brace is an error (`None`). |
| Text.FormatField | custom_components/nipca/__init__.py:219-220 | Formatting a template that has one `{}` and no other brace puts the argument in place of the `{}`. |
| Text.FormatSecondField | custom_components/nipca/__init__.py:219-220 | A template with a second `{}` has no argument left for it and fails, as Python's IndexError does. |
| Protocol.ParseLine | custom_components/nipca/__init__.py:210-214 | What one response line contributes: nothing when it is empty or has no `=` once stripped, else the lower-cased text before the first `=` and the text after it. |
| Protocol.Entries | custom_components/nipca/__init__.py:209-214 | One entry per response line, in order, each what that line contributes. |
| Protocol.Collect | custom_components/nipca/__init__.py:209-214 | The dictionary a run of entries builds when each entry is stored in turn, a later key overwriting an earlier one. |
| Protocol.ParseSpec | custom_components/nipca/__init__.py:209-217 | The dictionary `_nipca` returns for a response: its lines' entries collected in order. |
| Protocol.ParseLineShape | custom_components/nipca/__init__.py:209-216 | A line contributes an entry exactly when it is non-empty and its stripped text holds `=`. The entry's key is the lower-cased text before the first `=`, and its value is all the text after it. |
| Protocol.ParseLineOf | custom_components/nipca/__init__.py:211-214 | A line that strips to `k=v`, with no `=` in `k`, contributes exactly `lower(k): v`. |
| Protocol.ParseStep | custom_components/nipca/__init__.py:209-214 | One more line either leaves the dictionary as it was or stores that line's entry. |
| Protocol.ParseLastWins | custom_components/nipca/__init__.py:209-214 | The value stored under a key is the value of the last line with that key. |
| Protocol.ParseKeySource | custom_components/nipca/__init__.py:209-214 | Every stored key comes from some line, and its value is that of the last line with that key. |
| Protocol.ParseKeys | custom_components/nipca/__init__.py:209-216 | A key is in the dictionary exactly when some line contributes it. |
| Protocol.ParseKeysNoEquals | custom_components/nipca/__init__.py:213-214 | No stored key contains `=`, since a key is the lower-cased text before the first `=`. |
| Protocol.ParseSkips | custom_components/nipca/__init__.py:210-216 | An empty line, or one without `=` once stripped, can be removed from anywhere in the response without changing the dictionary. |
| Protocol.ParseResponse | custom_components/nipca/__init__.py:200-217 | The parsing loop returns the dictionary that `ParseSpec` describes. |
| Listener.NotifyLine | custom_components/nipca/__init__.py:275-279 | What one notify line carries: nothing when it is empty or has no `=` once stripped, else the text before the first `=` (case kept) and the text after it. |
| Listener.NotifyEntries | custom_components/nipca/__init__.py:275-279 | One entry per notify line, in order, each what that line carries. |
| Listener.ApplyLine | custom_components/nipca/__init__.py:275-283 | The events after one notify line: unchanged when the line carries nothing, else with the line's key set to its value. |
| Listener.Overlay | custom_components/nipca/__init__.py:273-283 | The events after a run of entries is stored in turn: an entry with nothing changes nothing, and `k=v` sets `k` to `v`, a later entry overwriting an earlier one. |
| Listener.NotifyEvents | custom_components/nipca/__init__.py:273-283 | The events after the lines of one pass are applied in order. |
| Listener.NotifyLineMatchesParseLine | custom_components/nipca/__init__.py:275-279 | A notify line and a status-page line are split in the same way. Only the status page lower-cases the key. |
| Listener.NotifyLineOf | custom_components/nipca/__init__.py:275-279 | A notify line that strips to `k=v`, with no `=` in `k`, carries exactly `(k, v)`, with the key's case kept. |
| Listener.NotifyEventsOverlay | custom_components/nipca/__init__.py:273-283 | Draining a buffer lays the dictionary its lines build over the events, the last line winning for each key. Keys the lines do not mention keep their values. |
| Listener.CountPoll | custom_components/nipca/__init__.py:267-270 | `cleaned_buffer_count` after one look at the buffer: one more when the buffer is empty, reset to 0 when it holds lines. |
| Listener.Resume | custom_components/nipca/__init__.py:266-284 | One pass from the loop test: the generator finishes once the counter has reached `cycles`; otherwise it raises the stream's failure and finishes, or counts the pass and yields. |
| Listener.Step | custom_components/nipca/__init__.py:236-284 | One `__anext__`. An exception raised before the generator resumes leaves its state as it was. Otherwise a pass that yields has read lines and leaves the generator running, and every other outcome leaves it finished. |
| Listener.Drive | custom_components/nipca/__init__.py:260-284 | The generator's state after a run of `__anext__` attempts, each one a `Step`. |
| Listener.Reached | custom_components/nipca/__init__.py:236-238 | The attempts that resumed the generator, in order. None of them is refused. |
| Listener.DriveSkipsRefused | custom_components/nipca/__init__.py:236-238 | Attempts refused before the generator resumes change nothing: a run leaves the generator where the attempts in it that resumed it leave it. |
| Listener.IdleCount | custom_components/nipca/__init__.py:265-271 | While the generator runs, no pass has failed. Its counter equals the number of empty-buffer passes in a row at the end of the run, counting only the attempts that resumed it. The counter is never above `cycles`. |
| Listener.IdleStop | custom_components/nipca/__init__.py:265-271 | On a run where every attempt resumes the generator and none fails, the generator finishes exactly when, before some pass, the run so far ends in `cycles` empty-buffer passes in a row. |
| Listener.Started | custom_components/nipca/__init__.py:232-233 | The client after the creation test: a new generator when motion detection is on and there is no client, else the client as it was. |
| Listener.Survives | custom_components/nipca/__init__.py:236-256 | The outcomes after which the client is kept: a yield, a TypeError or a RuntimeError. |
| Listener.ClientAfter | custom_components/nipca/__init__.py:231-256 | `self.client` after one update: none if no client was started, else the generator after one `__anext__`, kept when the outcome survives and cleared otherwise. |
| Listener.ClientNeedsMotion | custom_components/nipca/__init__.py:232-233 | When there is no client, one exists after the update only if motion detection is enabled. |
| Listener.ClientStarts | custom_components/nipca/__init__.py:232-238 | With motion detection on and no client, a first pass that delivers lines leaves a running client whose counter has counted that pass. |
| Listener.ClientClearedOnError | custom_components/nipca/__init__.py:243-249 | A timeout or a client error always clears the client, whether it was raised inside the generator or before it resumed. |
| Listener.ClientKeptOnWarning | custom_components/nipca/__init__.py:236-256 | A TypeError or RuntimeError raised inside a live generator keeps the client (lines 240-241 and 251-252), which is now finished. The next update that resumes it meets StopAsyncIteration and clears it (lines 254-256). |
| Listener.ClientKeptOnRefusal | custom_components/nipca/__init__.py:236-252 | A TypeError or RuntimeError raised before the generator resumes keeps the client exactly as it was. A live client stays live, and the same failure again keeps it again. |
| Device.TemplateUrl | custom_components/nipca/__init__.py:79-86 | Each page template formats to the base URL followed by the template's path. |
| Device.Query | custom_components/nipca/__init__.py:198-217 | What `_nipca(suffix)` returns: the dictionary the lines of the page at the formatted URL parse to. |
| Device.FirstAnswering | custom_components/nipca/__init__.py:187-192 | The probe's pick is one of the motion pages, and that page answered with a non-empty dictionary. |
| Device.FirstAnsweringSpec | custom_components/nipca/__init__.py:187-194 | The pick is the first page that answered: every page before it answered with nothing. The probe picks nothing exactly when every page answered with nothing. |
| Device.FirstRefreshProbes | custom_components/nipca/__init__.py:186-194 | After the first refresh, the probe is never unprobed. It names the first motion page that answered, or it is disabled, which happens exactly when every motion page answered with nothing. |
| Device.Refresh | custom_components/nipca/__init__.py:183-196 | The attributes and probe state after `update_info`: the common and stream pages laid over the attributes, then the probe's motion page. An unprobed device takes the first motion page that answers, or becomes disabled when none answers. |
| Device.LaterRefreshKeepsProbe | custom_components/nipca/__init__.py:195-196 | Once the probe holds a page or is disabled, a refresh leaves it as it is. |
| Device.LaterRefreshQueriesOnly | custom_components/nipca/__init__.py:195-196 | With the probe settled, a refresh reads only the common page, the stream page and the chosen motion page. When the probe is disabled it reads no motion page. Two servers that agree on those pages give the same result. |
| Device.MotionPart | custom_components/nipca/__init__.py:192-196 | The motion page a refresh merges: the chosen page's dictionary, or nothing when the probe is unprobed or disabled. |
| Device.RefreshMerge | custom_components/nipca/__init__.py:184-196 | A refresh lays the common page, then the stream page, then the chosen motion page over the old attributes. A later source wins on a shared key. A key that no source mentions keeps its old value. |
| Device.SensorName | custom_components/nipca/__init__.py:178 | The motion sensor is named after the camera, followed by ` Motion Sensor`. |
| Device.NipcaCameraDevice.constructor | custom_components/nipca/__init__.py:103-130 | A new device has not probed, has no client, and has empty events and attributes. |
| Device.NipcaCameraDevice.Name | custom_components/nipca/__init__.py:132-134 | The name is the `name` attribute. It is missing (a KeyError) exactly when that attribute is. |
| Device.NipcaCameraDevice.MjpegUrl | custom_components/nipca/__init__.py:136-138 | The MJPEG URL is the base URL followed by `vprofileurl1`. It is missing exactly when that attribute is. |
| Device.NipcaCameraDevice.BuildUrl | custom_components/nipca/__init__.py:219-220 | A page template gives the base URL followed by the template's path. |
| Device.NipcaCameraDevice.StillImageUrl | custom_components/nipca/__init__.py:140-142 | The still-image URL is the base URL followed by `/image/jpeg.cgi`. |
| Device.NipcaCameraDevice.NotifyStreamUrl | custom_components/nipca/__init__.py:144-146 | The notify-stream URL is the base URL followed by `/config/notify_stream.cgi`. |
| Device.NipcaCameraDevice.MotionDetectionEnabled | custom_components/nipca/__init__.py:148-155 | Motion detection is on exactly when `enable` is `yes` or `motiondetectionenable` is `1`. A missing key counts as off. |
| Device.NipcaCameraDevice.CameraDeviceInfo | custom_components/nipca/__init__.py:157-169 | The configuration with platform, URL, name, MJPEG URL and still-image URL laid over it: the keys are exactly the configuration's keys plus those five, the five hold the stated values, and every other configuration key keeps its value. It is missing exactly when the name or the video profile is missing. |
| Device.NipcaCameraDevice.MotionDeviceInfo | custom_components/nipca/__init__.py:171-181 | The configuration with platform, URL and `<name> Motion Sensor` laid over it, the other keys unchanged. It is missing exactly when the name is missing. |
| Device.NipcaCameraDevice.Nipca | custom_components/nipca/__init__.py:198-217 | Fetches the page at the template's URL and returns the dictionary its lines parse to. |
| Device.NipcaCameraDevice.UpdateInfo | custom_components/nipca/__init__.py:183-196 | The new attributes and probe state are exactly those `Refresh` gives for the old ones, and the device invariant is kept. |
| Device.NipcaCameraDevice.ManualUpdateSensors | custom_components/nipca/__init__.py:222-224 | Afterwards every key of `data` holds `data`'s value, and every other key of the events is unchanged, present or absent alike. |
| Device.NipcaCameraDevice.StoreNotifyValue | custom_components/nipca/__init__.py:280-283 | A `yes`/`no` value, sent through `manual_update_sensors`, and any other value, stored directly, have the same effect: the key gets the value and nothing else changes. |
| Device.NipcaCameraDevice.HandleNotifyLine | custom_components/nipca/__init__.py:274-283 | One notify line changes the events as `ApplyLine` says: an empty line or one without `=` changes nothing, and a `k=v` line sets `k` to `v`. |
| Device.NipcaCameraDevice.DrainBuffer | custom_components/nipca/__init__.py:273-283 | Reading every buffered line leaves the events that `NotifyEvents` gives. |
| Device.NipcaCameraDevice.ResumePass | custom_components/nipca/__init__.py:267-284 | One pass from the loop test stops when the counter has reached `cycles`. Otherwise it raises the poll's failure, or it counts the pass, drains the lines and yields. |
| Device.NipcaCameraDevice.Advance | custom_components/nipca/__init__.py:236-238 | One `__anext__` inside the timeout ends as `Step` says, and the events change only when it yields. |
| Device.NipcaCameraDevice.UpdateMotionSensors | custom_components/nipca/__init__.py:231-258 | The new client is `ClientAfter` of the old one: created only when motion is on and there is none, cleared on a timeout, a client error or StopAsyncIteration, kept on a TypeError or RuntimeError, whether that was raised inside the generator or before it resumed. The events change only when the generator yields, and the method returns them. |
| Device.Hub | custom_components/nipca/__init__.py:96-101 | The part of `hass.data` that caches devices under their `nipca.<url>` key. |
| Device.Hub.constructor | custom_components/nipca/__init__.py:96-101 | The cache starts empty. |
| Device.FromUrl | custom_components/nipca/__init__.py:94-101 | A device cached under `nipca.<url>` is returned and nothing changes. Otherwise a new device, refreshed once, is created and stored under that key. |

## Left out

- `async_setup` (UPnP discovery, loading the camera and binary-sensor platforms, lines 42-74): network discovery and calls into the host framework.
- The HTTP requests themselves (`requests.get`, `websession.get`), their timeouts, `async_timeout` and `iter_lines()`: these are I/O. Responses are given as decoded lines, so `bytes.decode` and its UnicodeDecodeError are left out too.
- The `ConnectionError` handler in `_nipca` (lines 206-208), after which `req` is unbound: an uncaught error in I/O code.
- The authentication objects built in `__init__` (lines 112-127): they only configure the HTTP client.
- The coordinator (`self.coordinator.data` and the listener callbacks, lines 226-229) and logging.
- `from_device_info` (lines 88-91): it only reads `presentationURL` from a host-framework dictionary. A missing URL (`None`, formatted as `'None'`) is not modelled, because URLs are strings.
- The formula `cycles = 30/update_interval.total_seconds()` (line 265): `cycles` is a parameter, the float rounded up.
- Awaiting and reading `response.content._buffer`: a `Poll` delivers a whole buffer or fails before any line of it is handled. A failure in the middle of a drain, after some lines were stored, is not modelled. A failure on a pass whose buffer is empty is allowed even though the source does no I/O on such a pass.
- Text.Lower: only ASCII `A`–`Z` are lower-cased; Python's `str.lower` also lower-cases non-ASCII letters.
- Text.Format: numbered and named fields (`{0}`, `{name}`) and format specifications are not modelled and count as errors. The source's templates use only `{}`.
- The configuration dictionary is modelled as string to string, so non-string settings such as `scan_interval` are taken as text.
- Device.FromUrl: says nothing about a cached device beyond returning it, because the hub keeps no invariant over its devices.
