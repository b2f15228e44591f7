/** Optional values: `None` stands for JavaScript's `null`, and for the
    `Infinity` / `NaN` sentinels the dashboard code uses as "no number". */
module Maybe {

  datatype Option<+T> = None | Some(value: T)
}
