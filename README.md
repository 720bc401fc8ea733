# automatic-database-backup, modelled in Dafny

This project models the core of *automatic-database-backup*, a set of Python
scripts that back up MySQL databases, monitor the server and the host, and
report by e-mail. The model has five parts:

- **Asynchronous e-mail sender** (`async_email.dfy`, module `AsyncEmail`).
  - The class `AsyncEmailSender` holds the task queue, the pending retries,
    the running flag, the worker handles and the sent/failed counters.
  - A pure `SenderState` with `Step`, `FireRetrySpec`, `StartSpec` and
    `StopSpec` specifies one worker iteration, one retry timer firing,
    `start_workers` and `stop_workers`.
  - Each method of the class is proved against these functions. Lifecycle
    lemmas follow one task through its attempts.
  - `SenderRegistry` models the module-level singleton accessor and its
    shutdown.
- **Synchronous sender** (`send_email.dfy`, module `SendEmail`):
  - recipient resolution, the envelope and its headers, and the result
    record of `send_email`;
  - the per-call configuration merge and `update_config`;
  - the backup-details formatter and the subject and style lookup tables.
- **Backup** (`backup.dfy`, module `Backup`):
  - the database list and the `mysql`/`mysqldump` connection arguments;
  - parsing of the table listing and the naming of folders and archives;
  - the success/failed partition of one database backup, and the overview
    of all databases;
  - the retention rule of `cleanup_old_backups`.
- **MySQL monitor** (`status_and_info.dfy`, module `StatusAndInfo`):
  - the class `MySQLMonitor` with its lazily opened connection;
  - the status dictionary, with the uptime and connection arithmetic;
  - the size filter over system databases, and the per-database rows and
    structures.
- **System information** (`system.dfy`, module `SystemInfo`):
  - the MAC address string;
  - the uptime decomposition;
  - the disk aggregation over partitions;
  - the load-average fallbacks.

The supporting modules are shared by all five parts:

- `wrappers.dfy`: `Option` and `Result`.
- `strings.dfy`:
  - `join` and `split`;
  - decimal rendering and parsing;
  - `strip` and `splitlines`.
- `py_values.dfy`: Python values, with their truthiness, `len`, `str()` and
  dictionary lookup.
- `string_order.dfy`: Python's string ordering, and `sorted(..., reverse=True)`.

Everything outside the program's own logic becomes an input to the model:

- the SMTP server's answer;
- the outcome of each `mysqldump`;
- the directory listing, with the date parser and a "may be removed" oracle;
- the query rows;
- the `psutil` replies;
- the elapsed time since boot;
- whether `uuid.getnode` succeeded.

## Model

| member | source | states |
|---|---|---|
| AsyncEmail.ExecuteFacts | scripts/email/async_email.py:139-192 | An unknown kind gives (False, "未知的任务类型: kind"). An exception gives (False, "任务执行异常: …"). A dict is a success exactly when its status is 'success'; otherwise the message is built from its error entry, defaulting to '未知错误'. A 2-tuple passes through unchanged. Anything else counts as a success. |
| AsyncEmail.DirectTaskFollowsRecord | scripts/email/async_email.py:163-176 | A direct task whose send returns a record succeeds exactly when the record's status is 'success'. Otherwise its message carries the record's error. |
| AsyncEmail.DirectTaskDelivered | scripts/email/async_email.py:163-176 | A direct task succeeds exactly when recipients resolve and the SMTP server accepts the message. |
| AsyncEmail.RetryDelay | scripts/email/async_email.py:197 | The delay before retry n is min(2^n, 60): at most 2^n, at most 60, and equal to one of them. |
| AsyncEmail.RetryDelayUncapped | scripts/email/async_email.py:197 | For the first five retries the delay is exactly 2^n seconds, at most 32. |
| AsyncEmail.RetryDelayMonotone | scripts/email/async_email.py:197 | The delay never decreases with the retry number. |
| AsyncEmail.RetryDelayCapped | scripts/email/async_email.py:197 | From the sixth retry on, the delay is 60 seconds. |
| AsyncEmail.Describe | scripts/email/async_email.py:200-213 | A backup, error or custom task is described as "备份通知/错误通知/自定义通知 -> <recipient>". A direct task is "直接发送 -> <recipient> - <subject or Unknown> [附件: <count>个]", counting the attachments only when truthy. Unknown kinds and empty arguments fall back to "<kind>任务". It fails exactly when a direct task's attachments are truthy but have no length. |
| AsyncEmail.DescribeNamesRecipientOnly | scripts/email/async_email.py:202-207 | For backup, error and custom tasks, the description depends only on the first argument. |
| AsyncEmail.DirectQueueFailureMatchesDescribe | scripts/email/async_email.py:274-290 | A direct email is answered with an error on queueing exactly when the worker will fail to describe it: both count its attachments with len(). |
| AsyncEmail.AdvanceFacts | scripts/email/async_email.py:98-124 | Once an attempt is judged: an empty queue waits and changes nothing; a sentinel is popped and stops the worker; a success pops the task and adds one to sent; a failure under max_retries pops it and schedules exactly one retry with retry_count+1 and delay RetryDelay(retry_count+1); any other failure pops it and adds one to failed. Running flag, workers and limits never change. |
| AsyncEmail.Step | scripts/email/async_email.py:94-137 | One worker iteration with the transport's reply. The queue is empty exactly when it idles, and otherwise its head is popped. It is counted sent only when the head task's reply is a success, and retried or dropped only when it is not. The state changes themselves are those of AdvanceFacts. |
| AsyncEmail.FireRetryFacts | scripts/email/async_email.py:198 | A retry timer firing puts its task at the back of the queue and removes exactly that pending retry, keeping the others as a multiset. Nothing else changes. |
| AsyncEmail.StartSpec | scripts/email/async_email.py:52-64 | When running, nothing changes. Otherwise it sets running and adds max_workers live workers. |
| AsyncEmail.StopSpec | scripts/email/async_email.py:66-92 | When not running, nothing changes. Otherwise it clears running, empties the worker list and, when wait is set, appends exactly max_workers sentinels. |
| AsyncEmail.CountAlive | scripts/email/async_email.py:304 | The live-worker count is positive exactly when some worker is alive. |
| AsyncEmail.StatsOf | scripts/email/async_email.py:296-305 | total_processed is sent_count plus failed_count. The counters and the queue size are reported as they are. |
| AsyncEmail.DeliverEmpty | scripts/email/async_email.py:98-103 | With an empty queue, workers consume no outcome and change nothing. |
| AsyncEmail.DeliverAppend | scripts/email/async_email.py:94-137 | Processing two runs of outcomes one after the other is the same as processing them together. |
| AsyncEmail.FailedAttempt | scripts/email/async_email.py:116-119 | A failed attempt with retries left uses one outcome and continues exactly as a run on the same task with retry_count+1. |
| AsyncEmail.LastAttempt | scripts/email/async_email.py:120-124 | A failed attempt with no retries left uses one outcome, empties the queue and adds one to failed. |
| AsyncEmail.SuccessfulAttempt | scripts/email/async_email.py:110-113 | A successful attempt uses one outcome, empties the queue and adds one to sent. |
| AsyncEmail.RetryRequeues | scripts/email/async_email.py:116-119 | A task that fails under the retry limit returns to the queue, with retry_count+1, once its timer fires. |
| AsyncEmail.AlwaysFailing | scripts/email/async_email.py:116-124 | A task that always fails is attempted until its retry_count reaches max_retries, is counted failed exactly once, and leaves the queue empty. |
| AsyncEmail.FreshTaskAttempts | scripts/email/async_email.py:116-124 | A new task that always fails uses exactly max_retries+1 outcomes, whatever follows them. |
| AsyncEmail.SucceedsAfterFailures | scripts/email/async_email.py:110-119 | A task that fails a few times within the limit and then succeeds is counted sent exactly once and never failed. |
| AsyncEmail.WorkerRunFacts | scripts/email/async_email.py:94-137 | A worker loop consumes at most the given outcomes. Counters only grow, by at most one per outcome. A stopped sender does nothing. |
| AsyncEmail.WorkerRunIdle | scripts/email/async_email.py:98-101 | A stopped sender, an empty queue, or a task with no outcome left ends the loop with nothing consumed and nothing changed. |
| AsyncEmail.WorkerRunStops | scripts/email/async_email.py:101-103 | A sentinel at the head ends the loop after popping it, with no outcome consumed. |
| AsyncEmail.WorkerRunSteps | scripts/email/async_email.py:94-137 | A task at the head uses exactly one outcome, and the loop goes on from the state Step leaves. |
| AsyncEmail.AsyncEmailSender.constructor | scripts/email/async_email.py:30-50 | A new sender has an empty queue, zero counters and max_workers running workers. |
| AsyncEmail.AsyncEmailSender.StartWorkers | scripts/email/async_email.py:52-64 | The new state is StartSpec of the old one. |
| AsyncEmail.AsyncEmailSender.StopWorkers | scripts/email/async_email.py:66-92 | The new state is StopSpec of the old one. |
| AsyncEmail.AsyncEmailSender.ProcessOne | scripts/email/async_email.py:94-137 | The new state and the step's kind are those of Step. |
| AsyncEmail.AsyncEmailSender.FireRetry | scripts/email/async_email.py:194-198 | The new state is FireRetrySpec of the old one. |
| AsyncEmail.AsyncEmailSender.WorkerExited | scripts/email/async_email.py:102-103 | A finished worker thread is no longer alive. Nothing else changes. |
| AsyncEmail.AsyncEmailSender.RunWorker | scripts/email/async_email.py:94-137 | The loop's final state, outcome count and stop flag are those of WorkerRun. |
| AsyncEmail.AsyncEmailSender.Turn | scripts/email/async_email.py:94-137 | One pass of the worker loop: after a sentinel the remaining run is over; after a task the remaining run is the rest of the outcomes from the new state. |
| AsyncEmail.AsyncEmailSender.SendBackupNotificationAsync | scripts/email/async_email.py:215-234 | Appends exactly one backup task with retry_count 0, with attachments added to its keyword arguments exactly when they are not None. It answers (True, "邮件任务已加入队列") exactly when the attachments are falsy or have a length. Otherwise the task is still queued and the answer is (False, "object of type '<type>' has no len()"). The counters are unchanged. |
| AsyncEmail.AsyncEmailSender.SendErrorNotificationAsync | scripts/email/async_email.py:236-253 | Appends exactly one error task with retry_count 0, with attachments added to its keyword arguments exactly when they are not None. It answers (True, "邮件任务已加入队列") exactly when the attachments are falsy or have a length. Otherwise the task is still queued and the answer is (False, "object of type '<type>' has no len()"). The counters are unchanged. |
| AsyncEmail.AsyncEmailSender.SendCustomNotificationAsync | scripts/email/async_email.py:255-272 | Appends exactly one custom task with retry_count 0, with attachments added to its keyword arguments exactly when they are not None. It answers (True, "邮件任务已加入队列") exactly when the attachments are falsy or have a length. Otherwise the task is still queued and the answer is (False, "object of type '<type>' has no len()"). The counters are unchanged. |
| AsyncEmail.AsyncEmailSender.SendEmailAsync | scripts/email/async_email.py:274-290 | Appends exactly one direct task with retry_count 0, its attachments kept as the fifth argument. It answers (True, "邮件任务已加入队列") exactly when the attachments are falsy or have a length. Otherwise the task is still queued and the answer is (False, "object of type '<type>' has no len()"). The counters are unchanged. |
| AsyncEmail.AsyncEmailSender.GetStats | scripts/email/async_email.py:296-305 | total_processed equals sent plus failed. active_workers is positive exactly when some worker is alive. |
| AsyncEmail.AsyncEmailSender.IsActive | scripts/email/async_email.py:332-334 | Active exactly when running and at least one worker is alive. |
| AsyncEmail.SenderRegistry.constructor | scripts/email/async_email.py:338 | No instance exists at first. |
| AsyncEmail.SenderRegistry.GetSender | scripts/email/async_email.py:341-346 | Repeated calls return the same instance, unchanged. The first call builds one with zero counters, 3 workers and 3 retries. |
| AsyncEmail.SenderRegistry.Shutdown | scripts/email/async_email.py:349-354 | Stops the current instance as StopSpec says and resets the registry to no instance. |
| SendEmail.Listed | scripts/email/send_email.py:161-180 | A plain address lists as itself, a list as itself, and a missing address as nothing. |
| SendEmail.ResolveRecipients | scripts/email/send_email.py:143-150 | An explicit recipient wins. Otherwise, with the flag set, the configured send_to entry is used as it is (one address or a list), or an error is raised when it is falsy. Without the flag, a missing recipient is an error. |
| SendEmail.BuildEnvelope | scripts/email/send_email.py:161-180 | The envelope is to + cc + bcc in order. The To header joins the to-list with ", ". Cc appears only when given, and no header is Bcc. |
| SendEmail.EmailSender.Address | scripts/email/send_email.py:161-180 | Building the headers and recipient list field by field gives exactly BuildEnvelope. |
| SendEmail.HeadersIgnoreBcc | scripts/email/send_email.py:169-180 | The headers do not depend on bcc, and the bcc addresses end the envelope list. |
| SendEmail.SendResult | scripts/email/send_email.py:131-223 | The status is 'success' exactly when recipients resolved and the SMTP delivery went through. Otherwise the error is the resolution or SMTP error. A duration is present exactly on success. The request fields are echoed. |
| SendEmail.RecordValue | scripts/email/send_email.py:131-140 | The record as a dictionary has its status and error under 'status' and 'error'. |
| SendEmail.Merge | scripts/email/send_email.py:153 | The per-call config has the keys of the defaults and of the keyword arguments, and keyword arguments win. |
| SendEmail.ApplyUpdates | scripts/email/send_email.py:75-79 | update_config keeps exactly the existing keys. A known key takes its new value and every other entry stays. |
| SendEmail.UpdateIsRestrictedMerge | scripts/email/send_email.py:75-79 | update_config equals the per-call merge restricted to the existing keys. |
| SendEmail.FormatBackupDetails | scripts/email/send_email.py:421-426 | A non-dict prints as str(x), an empty dict as "", and a one-entry dict as "<strong>k:</strong> v". |
| SendEmail.FormatBackupDetailsSnoc | scripts/email/send_email.py:424-425 | Each further entry adds "<br>" and "<strong>k:</strong> v" at the end, in insertion order. |
| SendEmail.BackupTitle | scripts/email/send_email.py:250-251 | The three known backup types have their titles, and any other hashable value is titled "数据备份". A list or dict raises, as dict.get does for an unhashable key. |
| SendEmail.NotifyStyle | scripts/email/send_email.py:393-399 | success, warning and error have their icons and colours. Any other hashable type uses the info icon and the theme colour. A list or dict raises, as dict.get does for an unhashable key. |
| SendEmail.InfoStyleDefaultColour | scripts/email/send_email.py:393-399 | Without a theme_color override, the info style has the default colour "#8ec5ff". |
| SendEmail.EmailSender.constructor | scripts/email/send_email.py:25-43 | A new sender has the configured recipient list and the initial default configuration. |
| SendEmail.EmailSender.DefaultRecipients | scripts/email/send_email.py:71-73 | The configured send_to entry as it is (None, one address or a list), or an empty list when none is configured. |
| SendEmail.EmailSender.UpdateConfig | scripts/email/send_email.py:75-79 | The new defaults are ApplyUpdates of the old ones, with the same keys. |
| SendEmail.EmailSender.CallConfig | scripts/email/send_email.py:153 | The per-call config merges the keyword arguments over the defaults and leaves the defaults untouched. |
| SendEmail.EmailSender.Send | scripts/email/send_email.py:117-223 | A message is built exactly when recipients resolve, and it has BuildEnvelope's recipients and headers. The result record is returned only for as_json. |
| Backup.GetDatabases | scripts/database/backup.py:72-78 | A string gives a one-element list, a list is returned as is, and anything else gives []. |
| Backup.GetDatabasesIdempotent | scripts/database/backup.py:72-78 | Feeding the list back in returns the same list. |
| Backup.ChosenOptionsFacts | scripts/database/backup.py:83-97 | Options come in the order -h, -P, -u, --password. -h appears exactly when the host is truthy and not localhost, -P exactly when the port is truthy and not 3306, and -u and --password exactly when their setting is truthy. |
| Backup.DefaultChoice | scripts/database/backup.py:85-93 | An empty configuration chooses host 127.0.0.1 and user root, and neither a port nor a password. |
| Backup.ParseRender | scripts/database/backup.py:83-97 | The rendered argument list reads back as the options it was made from. |
| Backup.ConnectionArgs | scripts/database/backup.py:83-97 | The loop builds the rendering of ChosenOptions, and it reads back as those options. |
| Backup.DefaultConnection | scripts/database/backup.py:85-93 | With an empty configuration, the arguments are -h 127.0.0.1 -u root. |
| Backup.KeepStripped | scripts/database/backup.py:110 | Every kept line is stripped and non-empty, and there are never more names than lines. |
| Backup.KeepStrippedAppend | scripts/database/backup.py:110 | The names of two consecutive runs of lines are the names of each run, in order. |
| Backup.KeepStrippedSnoc | scripts/database/backup.py:110 | Each further line adds exactly its stripped text at the end, or nothing when that text is empty. |
| Backup.TableNames | scripts/database/backup.py:102-115 | A failing or non-zero-exit listing gives []. Every name is stripped and non-empty. |
| Backup.KeepStrippedIdentity | scripts/database/backup.py:110 | Lines that are already stripped and non-empty are all kept, unchanged and in order. |
| Backup.TableNamesRoundTrip | scripts/database/backup.py:106-110 | Listing well-formed table names one per line parses back to the same names in order. |
| Backup.KeepStrippedDropsBlank | scripts/database/backup.py:110 | A blank line anywhere is dropped without disturbing the others. |
| Backup.ArchiveNameRoundTrip | scripts/database/backup.py:155-161 | database_timestamp.tar.gz splits back into the database and its timestamp. |
| Backup.SplitArchiveName | scripts/database/backup.py:155-161 | A name that splits yields a well-formed YYYYMMDD_HHMMSS timestamp. |
| Backup.MemberNameSplits | scripts/database/backup.py:159 | An archive member is named database/<table>.sql. |
| Backup.PartitionFacts | scripts/database/backup.py:195-202 | Every table lands in exactly one of the success and failed lists, according to whether its dump worked. |
| Backup.PartitionAppend | scripts/database/backup.py:195-202 | The partition keeps input order. |
| Backup.RunBackupFacts | scripts/database/backup.py:183-233 | No tables gives the "no tables" error. Otherwise tables_total is success plus failed, and the status is 'success' exactly when nothing failed, else 'partial'. raw_size sums the dumped tables. An archive exists exactly when compress is set and some table succeeded. |
| Backup.DumpTables | scripts/database/backup.py:195-202 | The loop yields exactly the dumped and failed tables and the dumped tables' total size. |
| Backup.BackupDatabase | scripts/database/backup.py:183-233 | Returns the backup's outcome when as_json, else None. |
| Backup.StatusOf | scripts/database/backup.py:244 | The overview entry is the backup's status, or 'unknown' when the result has none. |
| Backup.Runs | scripts/database/backup.py:239-242 | There is exactly one result per configured database, and each is that database's backup. |
| Backup.CollectRuns | scripts/database/backup.py:239-242 | The loop collects exactly Runs. |
| Backup.BackupAll | scripts/database/backup.py:238-245 | The results are returned only for as_json. The overview has the same databases as the results, and each entry is its status. |
| Backup.OverviewUnknown | scripts/database/backup.py:244 | A database shows 'unknown' exactly when it has no tables. |
| Backup.SubdirNames | scripts/database/backup.py:257 | The names are exactly those of the subdirectory entries. |
| Backup.ExpiredNames | scripts/database/backup.py:259-264 | A name is selected exactly when it parses as a timestamp and is older than the cutoff or at an index >= keep_count. |
| Backup.KeptAtMostKeepCount | scripts/database/backup.py:259-264 | At most keep_count parsed backups survive. |
| Backup.Removable | scripts/database/backup.py:263-267 | Only paths that can be removed are reported as removed. |
| Backup.RemovableMembers | scripts/database/backup.py:263-267 | A path is reported removed exactly when it is the folder plus a selected name and it can be removed. |
| Backup.RemoveExpired | scripts/database/backup.py:259-267 | The loop removes and reports exactly the removable paths of the expired names, in listing order. |
| Backup.ExpiredRemovedRule | scripts/database/backup.py:257-267 | A path is removed exactly when its name, at its index in the descending listing, meets the deletion rule and the path can be removed. |
| Backup.RemovedInRule | scripts/database/backup.py:257-267 | Within one database folder, removal follows the deletion rule over the subdirectories sorted newest first. |
| Backup.CleanupOldBackups | scripts/database/backup.py:250-270 | The removed paths are those the rule selects in every folder. The report counts them and always has deleted_files 0. |
| StringOrder.SortDescending | scripts/database/backup.py:257-258 | sorted(reverse=True) gives a descending permutation of the names. |
| StatusAndInfo.IntOf | scripts/database/status_and_info.py:73 | Digit text reads as its decimal value, and "-" followed by digits as the negated value. Any other text does not read. |
| StatusAndInfo.IntOfNatToString | scripts/database/status_and_info.py:73 | The decimal text of a non-negative number reads back as that number. |
| StatusAndInfo.SplitUptime | scripts/database/status_and_info.py:73-76 | hours*3600 + minutes*60 + secs equals the uptime, with minutes and secs below 60. Hours are not capped. |
| StatusAndInfo.ConnectionCount | scripts/database/status_and_info.py:82 | The count is max(Threads_connected - 1, 0). |
| StatusAndInfo.MySQLStatus | scripts/database/status_and_info.py:61-92 | The status has its four keys, in order. |
| StatusAndInfo.StatusFacts | scripts/database/status_and_info.py:61-92 | Every key is present. A missing row leaves "". A failed query blanks that field and every later one. The connection count is never negative. The uptime text recomposes to the seconds read. |
| StatusAndInfo.SizesFacts | scripts/database/status_and_info.py:120-128 | The size map holds no system database and holds exactly the other databases listed. Each maps to its last row's size, with NULL read as 0. |
| StatusAndInfo.SizesKeys | scripts/database/status_and_info.py:120-128 | A schema is a key exactly when it is not a system database and some row names it. |
| StatusAndInfo.SizesLastRow | scripts/database/status_and_info.py:120-128 | Each value is the size of the last row naming that schema, NULL read as 0. |
| StatusAndInfo.DatabaseSizes | scripts/database/status_and_info.py:112-128 | A failed query gives an empty map, and rows give Sizes. |
| StatusAndInfo.RowsOf | scripts/database/status_and_info.py:142-149 | The keys are exactly the configured databases whose query succeeded, each with its rows. |
| StatusAndInfo.StructuresOf | scripts/database/status_and_info.py:179-186 | A database's structures exist exactly when every table's describe succeeds, and they are keyed by table name. |
| StatusAndInfo.AllStructures | scripts/database/status_and_info.py:177-188 | A database appears exactly when its table query and every describe succeed. |
| StatusAndInfo.MySQLMonitor.constructor | scripts/database/status_and_info.py:16-30 | A new monitor has no connection. |
| StatusAndInfo.MySQLMonitor.Connect | scripts/database/status_and_info.py:33-49 | An existing connection is reused and gives True. Otherwise the attempt decides, and a failure leaves no connection. |
| StatusAndInfo.MySQLMonitor.MonitorStatus | scripts/database/status_and_info.py:52-59 | With no connection, the result is {} for as_json and None otherwise. With a connection, the status is returned only for as_json. |
| StatusAndInfo.MySQLMonitor.MonitorDatabaseSizes | scripts/database/status_and_info.py:103-110 | The same return shape, carrying the database sizes. |
| StatusAndInfo.MySQLMonitor.MonitorTableRows | scripts/database/status_and_info.py:139-152 | The same return shape, carrying RowsOf the configured databases. |
| StatusAndInfo.MySQLMonitor.MonitorTableStructure | scripts/database/status_and_info.py:174-191 | The same return shape, carrying AllStructures. |
| StatusAndInfo.CollectRows | scripts/database/status_and_info.py:142-149 | The loop accumulates exactly RowsOf. |
| StatusAndInfo.CollectStructures | scripts/database/status_and_info.py:177-188 | The loop accumulates exactly AllStructures. |
| StatusAndInfo.DescribeTables | scripts/database/status_and_info.py:179-186 | The inner loop gives exactly StructuresOf, and nothing once a describe fails. |
| SystemInfo.Hex2 | scripts/system/system.py:80 | Two lowercase hex digits that read back as the byte. |
| SystemInfo.MacStringRoundTrip | scripts/system/system.py:80-81 | Six groups joined by ':' make 17 characters and parse back to the groups. |
| SystemInfo.ParseMacText | scripts/system/system.py:80-81 | Any text that reads as six groups is exactly their printed form: six two-digit lower-case hex groups joined by ':'. |
| SystemInfo.MacAddress | scripts/system/system.py:77-84 | Always 17 characters. The k-th group from the right is (node >> 2k) & 0xff. A failure gives "00:00:00:00:00:00". |
| SystemInfo.NoMacIsZero | scripts/system/system.py:84 | The fallback string is six zero groups. |
| SystemInfo.MacAddressIntended | scripts/system/system.py:80-81 | With 8-bit steps, the string reads back as the 48-bit node. |
| SystemInfo.MacAsWrittenCollides | scripts/system/system.py:80-81 | As written, nodes 0 and 262144 print the same string. The 8-bit version tells them apart. |
| SystemInfo.HighBitsIgnored | scripts/system/system.py:80-81 | As written, the groups of node 2^18 equal those of node 0. |
| SystemInfo.GetUptime | scripts/system/system.py:258-279 | days*86400 + hours*3600 + minutes*60 + seconds equals N, with hours < 24 and minutes and seconds < 60. 'seconds' is N. A failure gives 0 seconds and "0秒". |
| SystemInfo.UptimeArithmetic | scripts/system/system.py:264-267 | The quotient and remainder chain recomposes N, and the hours are below 24. |
| SystemInfo.UptimeUnique | scripts/system/system.py:264-267 | Any decomposition within those bounds is the one produced. |
| SystemInfo.GetDiskInfo | scripts/system/system.py:160-209 | The loop computes DiskInfo of the partition listing. |
| SystemInfo.ScanCompletes | scripts/system/system.py:168-209 | The scan succeeds exactly when no partition raised an unexpected error. |
| SystemInfo.ScanStaysFailed | scripts/system/system.py:207-209 | After an unexpected error, later partitions are not looked at. |
| SystemInfo.ScanTotals | scripts/system/system.py:185-187 | The totals of total, used and free are sums over the partitions whose usage was read. |
| SystemInfo.ScanKeys | scripts/system/system.py:182 | The map holds exactly the mountpoints whose usage was read. Permission and not-found errors leave them out. |
| SystemInfo.ScanLastWins | scripts/system/system.py:182 | A mountpoint's entry comes from its last readable partition. |
| SystemInfo.RepeatedMountpoint | scripts/system/system.py:182-187 | A repeated mountpoint keeps one map entry but is counted twice in the totals. |
| SystemInfo.NoSpaceNoUsage | scripts/system/system.py:193 | The overall usage is absent (0) exactly when the total size is 0. |
| SystemInfo.LoadAverage | scripts/system/system.py:119-127 | Always three figures. On Windows or on any error they are [0, 0, 0]. Otherwise they are the three load figures, each rounded. |

## Left out

- Threads, `threading.Timer`, blocking queue reads with timeouts, `join`
  timeouts and `task_done`. Workers are a sequential step model: each timer
  is an explicit pending retry that `FireRetry` moves to the back of the queue,
  in any order.
- `AsyncEmail.Deliver` and the lifecycle lemmas: they take each attempt's
  judged outcome (success or not) rather than the transport's raw reply.
  `Step` and `ExecuteFacts` relate a reply to its judged outcome.
- `AlwaysFailing`, `FreshTaskAttempts` and `SucceedsAfterFailures` (and
  `FailedAttempt`, `LastAttempt`, `SuccessfulAttempt`, `RetryRequeues`):
  proved for a task alone in the queue, whose retry timer fires before the
  next attempt. Other tasks or pending retries interleaved with it are not
  covered; `AdvanceFacts` states each single step for any queue.
- `Backup.Candidates`: a truthy non-string `user` is rendered with `str()`.
  The source puts it into the argument list unconverted, and `subprocess`
  then rejects the call. In the model that failure appears only through the
  listing and dump outcomes, which are inputs.
- `wait_until_empty` and `get_queue_size`. They only poll the clock or read
  the queue length; the queue size appears in `StatsOf`.
- The SMTP connection, MIME construction, RFC 2047 header encoding, and the
  From, Subject and Date headers. The SMTP reply is an input.
- Reading attachment files, and the logging of attachments.
- YAML configuration discovery and loading.
- The HTML templates of the notification bodies.
- `subprocess` calls to `mysql`/`mysqldump`, `tarfile`, `shutil.rmtree` and
  `stat`. Their outcomes are inputs: a dump size or failure, an archive
  size, and a removability predicate.
- `datetime.strptime`. It is an abstract parse function from a folder name to
  a time.
- Filesystem paths. They are joined with "/" as strings.
- Floating-point work, and `_format_size` in both files:
  - `Backup.RunBackup`: the duration, and the human-readable sizes.
  - `SendEmail.SendResult`: the elapsed time is an input string.
  - `SystemInfo.DiskInfo`: usage is the pair (used, total) rather than a
    rounded percentage.
  - `SystemInfo.LoadAverage`: rounding is an input function.
- `SystemInfo.GetUptime`: uptime is whole seconds; fractional seconds and a
  clock that goes backwards are not modelled. The formatted text is not
  specified beyond its failure value.
- `PyValues.Repr`: quotes strings without escaping.
- `PyValues.ToStr`: does not model `str()` of floats.
- `StatusAndInfo.IntOf`: accepts an optional minus sign and digits. Python's
  `int()` also accepts surrounding whitespace, a plus sign and underscores.
- `SendEmail.Merge` and the other dictionaries: they are Dafny maps, which
  have no insertion order. Order is kept only where the model uses entry
  lists (the status dictionary, the backup details).
- `StringOrder.SortDescending`: names are compared as Python compares code
  points. Equal names cannot occur in one directory, so how ties are ordered
  does not matter.
- `StatusAndInfo.MySQLMonitor`: the `database` setting is a list of names. A
  plain string in that setting would be iterated character by character by
  the source; that case is not modelled.
- `run_all` of the monitor. It only calls the four monitors in sequence.
- `log_rich` and the other console output.
- `get_system_info`, CPU, memory, GPU and IP address reporting. These are
  external calls and floating-point averages.
- The module-level wrapper functions around the sender and the backup class.
  They forward their arguments.
- The Flask application and its routes.

## Findings

| source | as written | input that shows it | evidently intended | confidence | as-written member | corrected member |
|---|---|---|---|---|---|---|
| scripts/system/system.py:80-81 | The MAC groups are taken with `range(0, 12, 2)`, so consecutive groups are shifted by 2 bits and overlap. | node 262144 (2^18) prints "00:00:00:00:00:00", the same as node 0 | Six 8-bit groups covering the 48-bit node, which read back as the node | not executed | SystemInfo.MacAsWrittenCollides | SystemInfo.MacAddressIntended |
