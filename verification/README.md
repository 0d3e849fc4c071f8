# Live time-series subscriber: the drain into a bounded window

This project models the data path of the live-graphing subscriber. An MQTT
callback (`on_message`) decodes each JSON payload and puts it on a FIFO queue.
Each pass of the plotting loop (`plot_data`) then takes messages off that queue
until it is empty. For each message it:

- parses the `"timestamp"` text with the pattern `%Y-%m-%d %H:%M:%S`;
- reads `"value"`;
- appends both to the parallel lists `timestamps` and `values`;
- drops the oldest entry of both lists once they hold more than 100 entries.

The model is written in functional style, in four modules plus a small wrapper
module:

- `Timestamps` covers the 19-character zero-padded date-time text that the
  publisher formats and the subscriber parses: `Format`, `Parse` and the
  digit-level round trips.
- `SlidingWindow` covers the two parallel lists as a `Window`, the
  append-then-evict step `Push`, and the reference definition `Recent`, which
  keeps the last n elements of a sequence.
- `Subscriber` covers the queued `Message`, `ParseSample` (source lines 53-54),
  `OnMessage` (the callback), `DrainQueue` (the inner loop), and its reference
  definition `ParseAll`. It also has `Step`/`Run`, which model the callback
  thread and the plotting loop as one sequence of events.
- `Seqs` holds generic sequence facts used by the proofs.
- `Wrappers` holds `Option` and `Result`.

The value of a sample is opaque (a type parameter `V`). The drain's laws are
proved for any per-message parser (`Parser<V>`). The subscriber's parser is
`ParseSample`, and the end-to-end lemmas are stated with it.

Three points about the code shape the model:

- A message with a missing or malformed timestamp, or a missing value, is not
  skipped. It raises inside `plot_data` after `data_queue.get()` has already
  removed it, nothing catches the exception, and the plotting loop ends for
  good. In the model, `DrainQueue` stops with an error, and the state stays
  crashed from then on (`CrashIsFinal`).
- Each pass drains until `empty()` reports an empty queue. With the two
  threads modelled as one sequence of events, this is the same as draining
  what was queued when the pass began (`DrainAppended`).
- The code subscribes to one topic, keeps 100 points and draws a straight
  polyline.

## Model

| member | source | states |
|---|---|---|
| Timestamps.Format | publisher.py:19 | The publisher's timestamp text for any valid date-time is exactly 19 characters long. |
| Timestamps.Parse | subscriber.py:53 | Any text the parser accepts yields a valid date-time, and formatting that date-time gives back the very same text. |
| Timestamps.ParseFormat | publisher.py:19 | Parsing the text the publisher formats returns exactly the six fields that were formatted (round trip). |
| Timestamps.ParseIffFormat | subscriber.py:53 | The parser accepts a text and returns d if and only if d is a valid date-time whose formatting is that text. |
| Timestamps.ReadWriteDigits | publisher.py:19 | A zero-padded field of a given width reads back as the number written, whenever the number fits in that width. |
| Timestamps.WriteReadDigits | subscriber.py:53 | A run of digits read as a number and written back at the same width is the original run, leading zeros included. |
| SlidingWindow.Empty | subscriber.py:22-23 | Both lists start empty, which satisfies the window invariant. |
| SlidingWindow.Push | subscriber.py:56-62 | After one append-and-evict step, the new timestamp and value are last. The timestamp list grows by one below 100 and keeps its length at or above 100. Aligned lists stay aligned, and a window within the bound stays within it. |
| SlidingWindow.PushEvictsOnlyWhenFull | subscriber.py:59-62 | Below 100 entries nothing is evicted. At 100, exactly the head entry of each list is removed before the new one is added. |
| SlidingWindow.PushKeepsRecent | subscriber.py:56-62 | The window after a push equals the last 100 of (window before, then the new sample), in order. |
| Subscriber.ParseSample | subscriber.py:52-54 | A message becomes a sample exactly when its timestamp is present and parses and its value is present. The sample carries the parsed timestamp and the message's value. The timestamp is checked first, so a missing or malformed timestamp is the error reported. |
| Subscriber.OnMessage | subscriber.py:26-29 | A decoded payload adds exactly one message at the tail of the queue and leaves the rest of the queue untouched. A payload that fails to decode leaves the queue unchanged. |
| Subscriber.DrainQueue | subscriber.py:51-62 | The drain leaves as pending only a suffix of the queue. A drain without error leaves the queue empty, and an error consumes at least the failing message. The window invariant is preserved. |
| Subscriber.ParseAll | subscriber.py:51-54 | Reference definition. It gives the sample of every message in queue order when all parse. Otherwise it gives the index and error of the first message that does not parse, and all earlier messages parse. |
| Subscriber.DrainAllParsed | subscriber.py:51-62 | When every queued message parses, the drain empties the queue without error. The window then holds the last 100 of (old window, then the new samples in queue order). |
| Subscriber.DrainStopsAtFailure | subscriber.py:51-57 | The drain stops at the first message that does not parse, with its error. That message is consumed and the ones after it stay queued. The window holds only what the earlier good messages added, so the bad message appends and evicts nothing. |
| Subscriber.DrainAppendsEachOnce | subscriber.py:51-57 | If the window has room for all queued samples, each one is appended exactly once, in queue order, and nothing is evicted. |
| Subscriber.DrainKeepsLastHundred | subscriber.py:59-62 | 105 good messages drained into an empty window leave exactly samples 6 to 105, 100 in all. |
| Subscriber.DrainAppended | subscriber.py:51-52 | Draining a queue extended at its tail equals draining the original queue and then the added messages. If the first part stopped on an error, the added messages stay queued behind its leftovers. |
| Subscriber.Start | subscriber.py:22-24 | The queue and both lists start empty, the window invariant holds, and the loop is alive. |
| Subscriber.Step | subscriber.py:49-62 | After a pass of the live loop, the queue is empty or the loop has stopped on an error. A stopped loop changes nothing. The window invariant is preserved. |
| Subscriber.Run | subscriber.py:49-62 | Over any sequence of deliveries and passes, both lists keep equal length and at most 100 entries. |
| Subscriber.CrashIsFinal | subscriber.py:49-53 | Once parsing has raised, no later delivery or pass changes the state. |
| Subscriber.TickOnBadMessage | subscriber.py:51-53 | A pass whose oldest queued message does not parse consumes that message, leaves the window as it was and stops the loop with that message's error. |
| Subscriber.TickLive | subscriber.py:49-62 | A pass that leaves the loop alive has drained the whole queue into the window. This holds whether or not messages received afterwards would parse. |
| Subscriber.RunLive | subscriber.py:26-62 | From any state consistent with what it has received, every run whose loop is still alive stays consistent with all messages received. Consistent means: the queue holds the newest messages, every older one parsed, and the window holds the last 100 of their samples in arrival order. |
| Subscriber.LiveWindowKept | subscriber.py:26-62 | End to end from the start state, for every run whose loop is still alive: the queue holds the newest received messages, and every older one parsed. The window holds the last 100 of their samples in arrival order. Right after a pass, the queue is empty and the window holds the last 100 samples ever received. |
| Subscriber.ArrivalOrderKept | subscriber.py:26-62 | End to end, when every received message parses (queued ones included): the loop never stops, and the queue holds the newest received messages. The window holds the last 100 samples of all older ones, in arrival order. Right after a pass, the queue is empty and the window holds the last 100 samples ever received. |

## Left out

- MQTT connection, subscription and `loop_forever` (subscriber.py:31-37), and all of publisher.py except the timestamp format, are network I/O through a library that is not part of this model.
- OnMessage: JSON decoding is a library call. A payload arrives either already decoded or as "failed to decode". What the MQTT client then does with the exception raised in the callback is library behaviour and is not modelled. Only the queue being unchanged by that payload is modelled.
- Subscriber.Message: only JSON objects are modelled. A payload that decodes to a list, number or string, or a `"timestamp"` entry that is not a string, fails like a missing entry. The model does not reproduce Python's exact exception type for these cases.
- Timestamps.Parse: accepts only the 19-character zero-padded ASCII form the publisher emits. Python's `strptime` also accepts single-digit month, day, hour, minute and second fields, a space-padded day (`" 5"`, which keeps the text 19 characters long), any run of whitespace for the space, and non-ASCII decimal digits. The model rejects those forms.
- Timestamps.Format: pads every year to four digits. How `strftime` pads years below 1000 varies by platform, and the current time never has such a year.
- Threads, the daemon flag and `queue.Queue` locking (subscriber.py:94-96) are modelled as one interleaved sequence of events (`Run`). Each pass of the loop drains the whole queue at once.
- Plotting, styling, `plt.pause` and `time.sleep` (subscriber.py:64-90) are rendering and wall-clock behaviour, with no effect on the lists.
- The value is an opaque type parameter. Floating point and the random values of the publisher are not modelled.
- Channels, routing by topic and spline interpolation do not appear in this code, so they are not modelled.
